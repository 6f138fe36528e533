/** ACL reload: which admissions a replacement takes away, and what is queued before it takes effect. */
module AclReload {
  import opened Wrappers
  import opened Text
  import opened Sorting
  import opened Commands
  import opened CommandStores
  import opened Outbox
  import Authorizers
  import opened AuthorizerLaws

  type Authorizer = Authorizers.Authorizer
  type AdmissionKey = Authorizers.AdmissionKey
  type AdmissionAcl = Authorizers.AdmissionAcl

  /** The 90-minute deny window of an automatic revocation, in seconds. */
  const DENY_WINDOW: nat := 5400

  const ACL_REMOVED := "acl_removed"
  const SERVICE_DISABLED := "service_disabled"

  datatype Target = Target(channelId: U32, serviceId: string, reason: string)

  function TargetKey(t: Target): Key { (t.serviceId, t.channelId) }

  predicate Equivalent(a: AdmissionAcl, b: AdmissionAcl) {
    && a.role == b.role && a.allowListen == b.allowListen && a.allowTalk == b.allowTalk
    && a.allowInterrupt == b.allowInterrupt && a.interruptPriority == b.interruptPriority && a.enabled == b.enabled
  }

  predicate StaysEnabled(a: Authorizer, id: string) {
    Authorizers.EnabledService(a.byService, id)
  }

  /** The authorizer admits this service under exactly this row. */
  predicate Admits(a: Authorizer, id: string, key: AdmissionKey, acl: AdmissionAcl) {
    StaysEnabled(a, id) && key in a.byService[id].admissions && a.byService[id].admissions[key] == acl
  }

  /** An enabled row of `previous` that `next` no longer has as it was. */
  predicate Lost(previous: Authorizer, next: Authorizer, id: string, key: AdmissionKey) {
    && StaysEnabled(previous, id) && key in previous.byService[id].admissions
    && previous.byService[id].admissions[key].enabled
    && !Admits(next, id, key, previous.byService[id].admissions[key])
  }

  ghost predicate Hit(previous: Authorizer, next: Authorizer, id: string, channelId: U32) {
    exists key :: Lost(previous, next, id, key) && key.channelId == channelId
  }

  function ReasonFor(next: Authorizer, id: string): string {
    if StaysEnabled(next, id) then ACL_REMOVED else SERVICE_DISABLED
  }

  ghost predicate IsTarget(previous: Authorizer, next: Authorizer, t: Target) {
    Hit(previous, next, t.serviceId, t.channelId) && t.reason == ReasonFor(next, t.serviceId)
  }

  /** The exact diff: each (service, channel) that lost a row, once, in order, with its reason. */
  ghost predicate IsDiff(previous: Authorizer, next: Authorizer, targets: seq<Target>) {
    StrictlySorted(TargetKey, targets) && forall t :: t in targets <==> IsTarget(previous, next, t)
  }

  /** The diff depends on the two authorizers alone, not on the order maps are walked in. */
  lemma DiffIsUnique(previous: Authorizer, next: Authorizer, a: seq<Target>, b: seq<Target>)
    requires IsDiff(previous, next, a) && IsDiff(previous, next, b)
    ensures a == b
  {
    hide IsTarget;
    StrictlySortedIsUnique(TargetKey, a, b);
  }

  ghost predicate WellKeyed(previous: Authorizer, next: Authorizer, targets: map<string, Target>) {
    forall k :: k in targets ==>
      k == SlashKey(targets[k].serviceId, targets[k].channelId) && IsTarget(previous, next, targets[k])
  }

  ghost predicate Covers(previous: Authorizer, next: Authorizer, targets: map<string, Target>, id: string, key: AdmissionKey) {
    Lost(previous, next, id, key) ==> SlashKey(id, key.channelId) in targets
  }

  method AutomaticRevocations(previous: Authorizer, next: Authorizer) returns (result: seq<Target>)
    ensures IsDiff(previous, next, result)
  {
    hide SlashKey, IsTarget, Lost;
    var targets: map<string, Target> := map[];
    var services := previous.byService.Keys;
    while services != {}
      invariant services <= previous.byService.Keys
      invariant WellKeyed(previous, next, targets)
      invariant forall id, key :: id in previous.byService && id !in services ==> Covers(previous, next, targets, id, key)
    {
      var id :| id in services;
      ghost var before := targets;
      targets := ServiceRevocations(previous, next, id, targets);
      assert forall i, key :: Covers(previous, next, before, i, key) ==> Covers(previous, next, targets, i, key);
      services := services - {id};
    }
    forall id, key | Lost(previous, next, id, key) ensures SlashKey(id, key.channelId) in targets {
      LostIsKnown(previous, next, id, key);
      assert Covers(previous, next, targets, id, key);
    }
    result := [];
    var left := targets.Keys;
    while left != {}
      invariant left <= targets.Keys
      invariant DistinctKeys(TargetKey, result)
      invariant forall t :: t in result <==> exists k :: k in targets && k !in left && targets[k] == t
      invariant forall t :: t in result ==> SlashKey(t.serviceId, t.channelId) !in left
    {
      var k :| k in left;
      assert forall t :: t in result ==> SlashKey(t.serviceId, t.channelId) != k;
      assert k == SlashKey(targets[k].serviceId, targets[k].channelId);
      result := result + [targets[k]];
      left := left - {k};
    }
    SortBySorts(TargetKey, result);
    CollectedIsDiff(previous, next, targets, result);
    result := SortBy(TargetKey, result);
  }

  lemma LostIsKnown(previous: Authorizer, next: Authorizer, id: string, key: AdmissionKey)
    requires Lost(previous, next, id, key)
    ensures id in previous.byService
  {}

  lemma CollectedIsDiff(previous: Authorizer, next: Authorizer, targets: map<string, Target>, result: seq<Target>)
    requires WellKeyed(previous, next, targets)
    requires forall id, key :: Lost(previous, next, id, key) ==> SlashKey(id, key.channelId) in targets
    requires forall t :: t in result <==> exists k :: k in targets && targets[k] == t
    requires StrictlySorted(TargetKey, SortBy(TargetKey, result))
    ensures IsDiff(previous, next, SortBy(TargetKey, result))
  {
    hide SlashKey, Lost;
    var sorted := SortBy(TargetKey, result);
    forall t ensures t in sorted <==> IsTarget(previous, next, t) {
      assert t in sorted <==> t in multiset(sorted);
      assert t in result <==> t in multiset(result);
      if IsTarget(previous, next, t) {
        var key :| Lost(previous, next, t.serviceId, key) && key.channelId == t.channelId;
        var k := SlashKey(t.serviceId, t.channelId);
        assert k in targets;
        SlashKeyIsInjective(t.serviceId, t.channelId, targets[k].serviceId, targets[k].channelId);
        assert targets[k] == t;
      }
    }
  }

  /** The inner loop: the rows of one service that was enabled. */
  method ServiceRevocations(previous: Authorizer, next: Authorizer, id: string, before: map<string, Target>)
    returns (targets: map<string, Target>)
    requires id in previous.byService && WellKeyed(previous, next, before)
    ensures WellKeyed(previous, next, targets) && before.Keys <= targets.Keys
    ensures forall key :: Covers(previous, next, targets, id, key)
  {
    hide SlashKey;
    targets := before;
    var service := previous.byService[id];
    if !service.enabled { return; }
    var remains := id in next.byService && next.byService[id].enabled;
    var keys := service.admissions.Keys;
    while keys != {}
      invariant keys <= service.admissions.Keys
      invariant WellKeyed(previous, next, targets) && before.Keys <= targets.Keys
      invariant forall key :: key in service.admissions && key !in keys ==> Covers(previous, next, targets, id, key)
    {
      var key :| key in keys;
      keys := keys - {key};
      var acl := service.admissions[key];
      if acl.enabled {
        var reason := "";
        if !remains {
          reason := SERVICE_DISABLED;
        } else if key !in next.byService[id].admissions || !Equivalent(acl, next.byService[id].admissions[key]) {
          reason := ACL_REMOVED;
        }
        if reason != "" {
          var k := SlashKey(id, key.channelId);
          if k !in targets || reason == SERVICE_DISABLED {
            var t := Target(key.channelId, id, reason);
            assert IsTarget(previous, next, t) by { assert Lost(previous, next, id, key); }
            targets := targets[k := t];
          }
        }
      }
    }
  }

  // Queueing.

  function DenyUntil(now: nat): nat { Unix(now + DENY_WINDOW * SECOND) }

  /** The clock's Unix seconds, and a deadline after them, fit an int64. */
  predicate InRange(now: nat) { DenyUntil(now) < 0x8000_0000_0000_0000 }

  function RequestFor(t: Target, denyUntil: I64): Request {
    Request(t.channelId, t.serviceId, "", t.reason, denyUntil)
  }

  function RequestsFor(targets: seq<Target>, denyUntil: I64): (requests: seq<Request>)
    ensures |requests| == |targets|
    ensures forall i :: 0 <= i < |targets| ==> requests[i] == RequestFor(targets[i], denyUntil)
  {
    if targets == [] then []
    else RequestsFor(targets[..|targets| - 1], denyUntil) + [RequestFor(targets[|targets| - 1], denyUntil)]
  }

  /** The commands made of the requests, each under its own fresh message ID. */
  function NewCommands(requests: seq<Request>, ids: nat -> string): (commands: seq<Revocation>)
    ensures |commands| == |requests|
    ensures forall i :: 0 <= i < |requests| ==> commands[i] == NewCommand(requests[i], ids(i))
  {
    seq(|requests|, i requires 0 <= i < |requests| => NewCommand(requests[i], ids(i)))
  }

  predicate AllValid(commands: seq<Revocation>) {
    forall i :: 0 <= i < |commands| ==> ValidRevocation(commands[i])
  }

  function CommandsFor(targets: seq<Target>, denyUntil: I64, ids: nat -> string): (commands: seq<Revocation>)
    ensures |commands| == |targets|
    ensures forall i :: 0 <= i < |targets| ==> commands[i] == NewCommand(RequestFor(targets[i], denyUntil), ids(i))
  {
    NewCommands(RequestsFor(targets, denyUntil), ids)
  }

  /** `newPendingRevocation` for each request, then one enqueue of them all. */
  function Queue(b: Box, commands: seq<Revocation>, io: Persist): (Box, Option<EnqueueError>) {
    if !AllValid(commands) then (b, Some(EnqueueError.InvalidCommand)) else Enqueue(b, commands, io)
  }

  datatype ReloadError = NotLoaded(cause: Authorizers.LoadError) | NotQueued(refusal: EnqueueError)

  class ManagementApi {
    var authorizer: Authorizer
    const client: PrivateControlClient

    constructor (authorizer: Authorizer, client: PrivateControlClient)
      ensures this.authorizer == authorizer && this.client == client
    {
      this.authorizer, this.client := authorizer, client;
    }

    /** `queueServiceAdmissionRevocations`: one command per target, all checked, then queued together. */
    method QueueRevocations(targets: seq<Target>, denyUntil: I64, ids: nat -> string, io: Persist)
      returns (e: Option<EnqueueError>)
      requires client.Valid()
      modifies client, client.store
      ensures client.Valid()
      ensures (client.View(), e) == Queue(old(client.View()), CommandsFor(targets, denyUntil, ids), io)
    {
      hide ValidRevocation, ValidPending, Enqueue;
      var commands := CommandsFor(targets, denyUntil, ids);
      if !AllValid(commands) { return Some(EnqueueError.InvalidCommand); }
      e := client.EnqueuePendingCommands(commands, io);
    }

    /** Replaces the authorizer only after every revocation it calls for is durably queued. */
    method ReloadAuthorizer(tables: Authorizers.Tables, now: nat, ids: nat -> string, io: Persist)
      returns (r: Result<nat, ReloadError>, ghost targets: seq<Target>)
      requires client.Valid() && InRange(now)
      modifies this, client, client.store
      ensures client.Valid()
      ensures match Authorizers.Load(tables)
        case Err(cause) => r == Err(NotLoaded(cause)) && authorizer == old(authorizer) && client.View() == old(client.View())
        case Ok(next) =>
          && IsDiff(old(authorizer), next, targets)
          && var (queued, refusal) := Queue(old(client.View()), CommandsFor(targets, DenyUntil(now), ids), io);
          && client.View() == queued
          && (refusal.None? ==> r == Ok(|targets|) && authorizer == next)
          && (refusal.Some? ==> r == Err(NotQueued(refusal.value)) && authorizer == old(authorizer))
    {
      hide IsDiff, ValidRevocation, ValidPending, Authorizers.Load;
      targets := [];
      var loaded := Authorizers.LoadManagementApiAuthorizer(tables);
      if loaded.Err? { return Err(NotLoaded(loaded.error)), []; }
      var next := loaded.value;
      var revocations := AutomaticRevocations(authorizer, next);
      targets := revocations;
      if |revocations| > 0 {
        var e := QueueRevocations(revocations, DenyUntil(now), ids, io);
        if e.Some? { return Err(NotQueued(e.value)), targets; }
      }
      authorizer := next;
      r := Ok(|revocations|);
    }
  }

  /** Every revocation the diff of two loaded authorizers calls for is a valid command. */
  lemma TargetCommandIsValid(before: Authorizers.Tables, next: Authorizer, t: Target, denyUntil: I64, id: string)
    requires Authorizers.Load(before).Ok? && IsTarget(Authorizers.Load(before).value, next, t)
    requires ValidMessageId(id) && denyUntil >= 1
    ensures ValidRevocation(NewCommand(RequestFor(t, denyUntil), id))
  {
    LoadIsCanonical(before);
  }

  /** A reload between loaded tables succeeds exactly when it takes nothing away, or what it takes away fits
      beside the pending commands and the write commits. In particular more than 64 pairs never reload. */
  lemma ReloadSucceedsIff(before: Authorizers.Tables, next: Authorizer, targets: seq<Target>, now: nat,
                          ids: nat -> string, b: Box, io: Persist)
    requires Authorizers.Load(before).Ok? && IsDiff(Authorizers.Load(before).value, next, targets) && InRange(now)
    requires forall i :: 0 <= i < |targets| ==> ValidMessageId(ids(i)) && ids(i) !in b.pending
    requires forall i, j :: 0 <= i < j < |targets| ==> ids(i) != ids(j)
    ensures Queue(b, CommandsFor(targets, DenyUntil(now), ids), io).1.None? <==>
      targets == [] || (|b.pending| + |targets| <= MAX_PENDING && io.Committed?)
  {
    var commands := CommandsFor(targets, DenyUntil(now), ids);
    forall i | 0 <= i < |commands| ensures ValidRevocation(commands[i]) {
      assert targets[i] in targets;
      TargetCommandIsValid(before, next, targets[i], DenyUntil(now), ids(i));
    }
    hide ValidRevocation, ValidMessageId, IsDiff;
    NoFaultMeansSound(b.pending, commands);
  }
}
