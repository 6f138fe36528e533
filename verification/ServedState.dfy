/** What the served state is made of, over any number of sessions: exactly one full snapshot of the current session,
    and the lifecycle events received after it. */
module ServedStates {
  import opened Wrappers
  import opened Commands
  import opened Fields
  import opened Snapshots
  import opened SnapshotOrigins
  import opened LifecycleEvents
  import opened ManagementStates

  /** The messages of a session that reach the state; the others at most end the session, as a lost connection does. */
  datatype Message = ChunkMessage(chunk: Chunk) | EventMessage(event: LifecycleEvent)

  /** One message: what the session then holds, what happens to the state, and whether the session goes on. */
  ghost function HandleMessage(held: Option<Assembly>, request: string, m: Message): (Option<Assembly>, seq<StateEvent>, bool) {
    match m
    case EventMessage(e) => if ValidLifecycleEvent(e) then (held, [Lifecycle(e)], true) else (held, [], false)
    case ChunkMessage(s) =>
      var (held', p) := Handle(held, request, s);
      (held', if p.Complete? then [SnapshotApplied(p.channels)] else [], !p.Rejected?)
  }

  /** What a session does to the state, up to the first message it refuses. */
  ghost function SessionLog(held: Option<Assembly>, request: string, ms: seq<Message>): seq<StateEvent>
    decreases ms
  {
    if ms == [] then []
    else
      var (held', out, going) := HandleMessage(held, request, ms[0]);
      out + (if going then SessionLog(held', request, ms[1..]) else [])
  }

  /** One turn of the reconnect loop: an attempt that gets no session, or a session and the messages it reads. */
  datatype Attempt = NoSession | Session(request: string, messages: seq<Message>)

  ghost function SessionSoFar(request: string, messages: seq<Message>): seq<StateEvent> {
    [Connected] + SessionLog(None, request, messages)
  }

  ghost function PastLog(past: seq<Attempt>): seq<StateEvent> {
    if past == [] then []
    else
      var a := past[|past| - 1];
      PastLog(past[..|past| - 1]) + (if a.Session? then SessionSoFar(a.request, a.messages) else []) + [Disconnected]
  }

  /** Everything that has happened to the state: the attempts that have ended, and the one under way. */
  ghost function StateLog(past: seq<Attempt>, current: Attempt): seq<StateEvent> {
    PastLog(past) + if current.Session? then SessionSoFar(current.request, current.messages) else []
  }

  ghost function HeldBy(r: SnapshotReassembly?): Option<Assembly>
    reads r
  {
    if r == null then None else Some(r.View())
  }

  /** The snapshot case of `handleSessionMessage`: the reassembly is created by the first chunk. */
  method HandleChunk(held: SnapshotReassembly?, request: string, s: Chunk) returns (p: Progress, held': SnapshotReassembly?)
    requires held != null ==> ValidAssembly(held.View())
    modifies held
    ensures held' != null ==> ValidAssembly(held'.View())
    ensures held' == held || fresh(held')
    ensures (HeldBy(held'), p) == Handle(old(HeldBy(held)), request, s)
  {
    hide ValidMessageId, ValidChannels, AddChunk;
    held' := held;
    if !ValidChunk(s) || s.inReplyTo != request { return Rejected(Invalid), held'; }
    if held' == null { held' := new SnapshotReassembly(s); }
    p := held'.Add(s);
  }

  /** The state-changing cases of `handleSessionMessage`. */
  method HandleStateMessage(state: ManagementState, held: SnapshotReassembly?, request: string, m: Message)
    returns (going: bool, held': SnapshotReassembly?)
    requires state.Valid() && (state.liveEvents != null ==> state.liveEvents.Valid())
    requires held != null ==> ValidAssembly(held.View())
    modifies state`snapshotApplied, state`channels, state`log, held, state.liveEvents
    ensures state.Valid() && (state.liveEvents != null ==> state.liveEvents.Valid())
    ensures held' != null ==> ValidAssembly(held'.View())
    ensures held' == held || fresh(held')
    ensures var (r, out, ok) := HandleMessage(old(HeldBy(held)), request, m);
      HeldBy(held') == r && state.log == old(state.log) + out && going == ok
  {
    hide ValidLifecycleEvent, Handle, Replay, ValidAssembly;
    held' := held;
    match m {
      case EventMessage(e) =>
        if !ValidLifecycleEvent(e) { return false, held'; }
        state.RecordLifecycleEvent(e);
        going := true;
      case ChunkMessage(s) =>
        var p;
        p, held' := HandleChunk(held, request, s);
        if p.Complete? { state.ApplyRelayStateSnapshot(p.channels); }
        going := !p.Rejected?;
    }
  }

  // At most one snapshot per session, and what it is made of.

  ghost function ChunksOf(ms: seq<Message>): seq<Chunk> {
    if ms == [] then []
    else ChunksOf(ms[..|ms| - 1]) + (if ms[|ms| - 1].ChunkMessage? then [ms[|ms| - 1].chunk] else [])
  }

  /** The chunks that a session with this request had read at some point, all of one snapshot in index order,
      with nobody listed twice. */
  ghost predicate WholeSnapshot(e: StateEvent, request: string, ms: seq<Message>) {
    && e.SnapshotApplied? && NobodyTwice(e.channels)
    && exists k :: 0 <= k <= |ms| && MadeFrom(e.channels, request, ChunksOf(ms[..k]))
  }

  /** Only lifecycle events, but for at most one snapshot, and that a whole one. */
  ghost predicate OneWholeSnapshot(log: seq<StateEvent>, request: string, ms: seq<Message>) {
    && (forall i :: 0 <= i < |log| ==> log[i].Lifecycle? || WholeSnapshot(log[i], request, ms))
    && (forall i, j :: 0 <= i < j < |log| ==> log[i].Lifecycle? || log[j].Lifecycle?)
  }

  ghost predicate OnlyEvents(log: seq<StateEvent>) {
    forall i :: 0 <= i < |log| ==> log[i].Lifecycle?
  }

  lemma {:induction false} NothingAfterFull(held: Option<Assembly>, request: string, ms: seq<Message>)
    requires Full(held)
    ensures OnlyEvents(SessionLog(held, request, ms))
    decreases ms
  {
    if ms != [] {
      var m := ms[0];
      if m.ChunkMessage? { FullRejects(held, request, m.chunk); }
      hide Handle, Full, ValidLifecycleEvent;
      if m.EventMessage? { NothingAfterFull(held, request, ms[1..]); }
    }
  }

  lemma ChunksOfNext(ms: seq<Message>, k: nat)
    requires k < |ms|
    ensures ChunksOf(ms[..k + 1]) == if ms[k].ChunkMessage? then ChunksOf(ms[..k]) + [ms[k].chunk] else ChunksOf(ms[..k])
  {
    assert ms[..k + 1][..k] == ms[..k];
  }

  lemma ChunkEffect(held: Option<Assembly>, request: string, ms: seq<Message>, k: nat)
    requires k < |ms| && ms[k].ChunkMessage? && Holds(held, request, ChunksOf(ms[..k]))
    ensures var (held', p) := Handle(held, request, ms[k].chunk);
      && (!p.Rejected? ==> Holds(held', request, ChunksOf(ms[..k + 1])))
      && (p.Complete? ==> WholeSnapshot(SnapshotApplied(p.channels), request, ms) && Full(held'))
  {
    ChunksOfNext(ms, k);
    hide ChunksOf, MadeFrom, NobodyTwice, Handle, Holds, Full, AcceptableChunk, Continues, Collected, Concat, WholeSnapshot;
    ChunkIsTakenIff(held, request, ChunksOf(ms[..k]), ms[k].chunk);
    var p := Handle(held, request, ms[k].chunk).1;
    if p.Complete? { WholeAt(SnapshotApplied(p.channels), request, ms, k + 1); }
  }

  lemma WholeAt(e: StateEvent, request: string, ms: seq<Message>, k: nat)
    requires k <= |ms| && e.SnapshotApplied? && NobodyTwice(e.channels) && MadeFrom(e.channels, request, ChunksOf(ms[..k]))
    ensures WholeSnapshot(e, request, ms)
  {}

  /** A message adds nothing, one lifecycle event, or one whole snapshot that leaves the assembly full. */
  lemma MessageEffect(held: Option<Assembly>, request: string, ms: seq<Message>, k: nat)
    requires k < |ms| && Holds(held, request, ChunksOf(ms[..k]))
    ensures var (held', out, going) := HandleMessage(held, request, ms[k]);
      && (going ==> Holds(held', request, ChunksOf(ms[..k + 1])))
      && (out == [] || (|out| == 1 && (out[0].Lifecycle? || (WholeSnapshot(out[0], request, ms) && Full(held')))))
  {
    hide Handle, ValidLifecycleEvent, Holds, Full, ChunksOf, WholeSnapshot;
    if ms[k].ChunkMessage? {
      ChunkEffect(held, request, ms, k);
    } else {
      ChunksOfNext(ms, k);
    }
  }

  lemma OneMore(e: StateEvent, rest: seq<StateEvent>, request: string, ms: seq<Message>)
    requires (e.Lifecycle? && OneWholeSnapshot(rest, request, ms)) || (WholeSnapshot(e, request, ms) && OnlyEvents(rest))
    ensures OneWholeSnapshot([e] + rest, request, ms)
  {
    hide WholeSnapshot;
    var log := [e] + rest;
    assert log[0] == e && forall i :: 0 < i < |log| ==> log[i] == rest[i - 1];
  }

  /** Whatever chunks and events a session reads, interleaved in any way: it applies at most one snapshot,
      and that one is whole. */
  lemma SessionAppliesOnce(request: string, ms: seq<Message>)
    ensures OneWholeSnapshot(SessionLog(None, request, ms), request, ms)
  {
    assert ms[0..] == ms;
    AppliesOnceFrom(None, request, ms, 0);
  }

  lemma {:induction false} AppliesOnceFrom(held: Option<Assembly>, request: string, ms: seq<Message>, k: nat)
    requires k <= |ms| && Holds(held, request, ChunksOf(ms[..k]))
    ensures OneWholeSnapshot(SessionLog(held, request, ms[k..]), request, ms)
    decreases |ms| - k
  {
    NothingHappened(request, ms);
    if k < |ms| {
      var (held', out, going) := HandleMessage(held, request, ms[k]);
      MessageEffect(held, request, ms, k);
      SessionLogUnfolds(held, request, ms, k);
      hide HandleMessage, SessionLog, Full, WholeSnapshot, OneWholeSnapshot, OnlyEvents, Holds, ChunksOf;
      var rest := if going then SessionLog(held', request, ms[k + 1..]) else [];
      if out == [] {
        assert out + rest == rest;
        if going { AppliesOnceFrom(held', request, ms, k + 1); }
      } else {
        assert out + rest == [out[0]] + rest;
        if out[0].Lifecycle? {
          if going { AppliesOnceFrom(held', request, ms, k + 1); }
        } else if going {
          NothingAfterFull(held', request, ms[k + 1..]);
        }
        OneMore(out[0], rest, request, ms);
      }
    }
  }

  lemma SessionLogUnfolds(held: Option<Assembly>, request: string, ms: seq<Message>, k: nat)
    requires k < |ms|
    ensures var (held', out, going) := HandleMessage(held, request, ms[k]);
      SessionLog(held, request, ms[k..]) == out + (if going then SessionLog(held', request, ms[k + 1..]) else [])
  {
    hide HandleMessage;
    assert ms[k..][0] == ms[k] && ms[k..][1..] == ms[k + 1..];
  }

  lemma NothingHappened(request: string, ms: seq<Message>)
    ensures OneWholeSnapshot([], request, ms) && OnlyEvents([])
  {}

  // Lifecycle events, field by field.

  ghost predicate ListedType(t: string) {
    || t == "participant_joined" || t == "participant_left" || t == "talk_started" || t == "talk_ended"
    || t == "relay_health_changed" || t == "recording_state_changed" || t == "service_admission_issued"
    || t == "service_admission_revoked"
  }

  ghost predicate ListedHealth(s: string) { s == "healthy" || s == "degraded" || s == "unhealthy" }

  ghost predicate ListedEventState(s: string) {
    || ListedHealth(s) || s == "starting" || s == "recording" || s == "stopping" || s == "stopped" || s == "failed"
  }

  /** `^[A-Z0-9_:-]+$`, 1 to 128 characters. */
  ghost predicate IsReasonText(s: string) {
    1 <= |s| <= 128 && forall c :: c in s ==> 'A' <= c <= 'Z' || '0' <= c <= '9' || c == '_' || c == ':' || c == '-'
  }

  /** An event that a session takes: every field that is present is well formed; a health event names a health state and no
      channel, any other event names a channel. */
  ghost predicate AcceptableEvent(e: LifecycleEvent) {
    && ListedType(e.eventType) && e.senderId != Some(0)
    && (e.serviceId.Some? ==> IsServiceId(e.serviceId.value))
    && (e.recordingJobId.Some? ==> 1 <= |e.recordingJobId.value| <= 128)
    && (e.state.Some? ==> ListedEventState(e.state.value))
    && (e.reason.Some? ==> IsReasonText(e.reason.value))
    && (if e.eventType == "relay_health_changed" then e.channelId.None? && e.state.Some? && ListedHealth(e.state.value)
        else e.channelId.Some?)
  }

  lemma ReasonTextIff(s: string)
    ensures ValidReasonText(s) <==> IsReasonText(s)
  {
    assert forall i :: 0 <= i < |s| ==> s[i] in s;
  }

  /** A session goes on after an event iff it is acceptable, and the event then happens, once; otherwise nothing does. */
  lemma EventIsTakenIff(held: Option<Assembly>, request: string, e: LifecycleEvent)
    ensures HandleMessage(held, request, EventMessage(e))
      == (held, if AcceptableEvent(e) then [Lifecycle(e)] else [], AcceptableEvent(e))
  {
    if e.serviceId.Some? { ServiceIdIff(e.serviceId.value); }
    if e.reason.Some? { ReasonTextIff(e.reason.value); }
    hide ValidServiceId, IsServiceId, ValidReasonText, IsReasonText;
    assert ValidLifecycleEvent(e) <==> AcceptableEvent(e);
    hide ValidLifecycleEvent, AcceptableEvent;
  }

  // The state served.

  ghost predicate IsEntry(cs: seq<Channel>, c: U32, s: U32, state: string) {
    exists i, j :: 0 <= i < |cs| && 0 <= j < |cs[i].participants|
      && cs[i].channelId == c && cs[i].participants[j] == Participant(s, state)
  }

  lemma {:induction false} ListedIsEntry(cs: seq<Channel>, c: U32, s: U32)
    requires Listed(cs, c, s).Some?
    ensures IsEntry(cs, c, s, Listed(cs, c, s).value)
  {
    var init, last := cs[..|cs| - 1], cs[|cs| - 1];
    if last.channelId == c && LastListed(last.participants, s).Some? {
      LastListedIsEntry(last.participants, s);
      assert cs[|cs| - 1] == last;
    } else {
      ListedIsEntry(init, c, s);
      var i, j :| 0 <= i < |init| && 0 <= j < |init[i].participants|
        && init[i].channelId == c && init[i].participants[j] == Participant(s, Listed(cs, c, s).value);
      assert cs[i] == init[i];
    }
  }

  /** In a whole snapshot, what is listed for a participant is its one entry. */
  lemma ListedIffEntry(cs: seq<Channel>, c: U32, s: U32, state: string)
    requires Unique(Pairs(cs))
    ensures Listed(cs, c, s) == Some(state) <==> IsEntry(cs, c, s, state)
  {
    if Listed(cs, c, s).Some? {
      ListedIsEntry(cs, c, s);
    }
    if IsEntry(cs, c, s, state) {
      var i, j :| 0 <= i < |cs| && 0 <= j < |cs[i].participants|
        && cs[i].channelId == c && cs[i].participants[j] == Participant(s, state);
      hide Unique;
      UniqueEntryIsServed(cs, i, j);
      ProjectSnapshotLooksUp(cs, c, s);
    }
  }

  /** Happening j is the one snapshot applied since the last connect, at b, and made of what the current session has read;
      beside it there were only lifecycle events. */
  ghost predicate CurrentSnapshot(log: seq<StateEvent>, b: int, j: int, current: Attempt) {
    && current.Session? && 0 <= b < j < |log| && log[b].Connected? && WholeSnapshot(log[j], current.request, current.messages)
    && forall k :: b < k < |log| && k != j ==> log[k].Lifecycle?
  }

  /** Of the snapshot at j and the events since, the last that fixes this participant. */
  ghost predicate Fixes(log: seq<StateEvent>, j: int, k: int, c: U32, s: U32) {
    0 <= j <= k < |log| && Decisive(log[k], c, s) && forall m :: k < m < |log| ==> !Decisive(log[m], c, s)
  }

  /** The participant's entry in the snapshot, or what a later join, departure or talk start made of it. */
  ghost predicate FixedState(log: seq<StateEvent>, j: int, k: int, c: U32, s: U32, x: Option<string>)
    requires 0 <= j <= k < |log| && log[j].SnapshotApplied?
  {
    if k == j then (forall state :: x == Some(state) <==> IsEntry(log[j].channels, c, s, state))
    else log[k].Lifecycle? && x == MovedTo(log[k].event)
  }

  function MovedTo(e: LifecycleEvent): Option<string> {
    if e.eventType == JOINED then Some("idle") else if e.eventType == TALK_STARTED then Some("talking") else None
  }

  /** What is served for a participant: that, or idle if it is present and a talk has ended since. */
  ghost predicate ServedFor(log: seq<StateEvent>, j: int, c: U32, s: U32)
    requires 0 <= j < |log| && log[j].SnapshotApplied?
  {
    exists k, x :: Fixes(log, j, k, c, s) && FixedState(log, j, k, c, s, x)
      && Lookup(Replay(log).channels, c, s) ==
           if x.Some? && exists m :: k < m < |log| && EndsTalk(log[m], c, s) then Some("idle") else x
  }

  lemma {:induction false} LastFix(log: seq<StateEvent>, n: nat, j: nat, c: U32, s: U32) returns (k: nat)
    requires j < n <= |log| && Decisive(log[j], c, s)
    requires forall m :: n <= m < |log| ==> !Decisive(log[m], c, s)
    ensures Fixes(log, j, k, c, s)
  {
    k := n - 1;
    if !Decisive(log[n - 1], c, s) { k := LastFix(log, n - 1, j, c, s); }
  }

  lemma ServedFromSnapshot(log: seq<StateEvent>, b: nat, j: nat, current: Attempt, c: U32, s: U32)
    requires CurrentSnapshot(log, b, j, current)
    ensures ServedFor(log, j, c, s)
  {
    assert log[j].SnapshotApplied? && Unique(Pairs(log[j].channels)) by {
      hide MadeFrom;
      UniqueIffNobodyTwice(log[j].channels);
    }
    hide WholeSnapshot;
    var k := LastFix(log, |log|, j, c, s);
    var x := Affect(None, log[k], c, s);
    LookupIsParticipantState(log, c, s);
    LastDecisiveWins(log, k, c, s);
    forall state ensures k == j ==> (x == Some(state) <==> IsEntry(log[j].channels, c, s, state)) {
      if k == j { ListedIffEntry(log[j].channels, c, s, state); }
    }
    hide Unique, Pairs, Replay, ParticipantState, IsEntry;
    assert FixedState(log, j, k, c, s, x);
  }

  /** From b on: a connect, then lifecycle events and at most one snapshot, a whole one of this session. */
  ghost predicate SessionFrom(log: seq<StateEvent>, b: int, request: string, ms: seq<Message>) {
    && 0 <= b < |log| && log[b].Connected?
    && (forall i :: b < i < |log| ==> log[i].Lifecycle? || WholeSnapshot(log[i], request, ms))
    && (forall i, j :: b < i < j < |log| ==> log[i].Lifecycle? || log[j].Lifecycle?)
  }

  lemma LogShape(past: seq<Attempt>, current: Attempt)
    ensures var log := StateLog(past, current);
      if current.Session? then SessionFrom(log, |PastLog(past)|, current.request, current.messages)
      else log == [] || log[|log| - 1].Disconnected?
  {
    if current.Session? {
      SessionAppliesOnce(current.request, current.messages);
      Follows(PastLog(past), SessionLog(None, current.request, current.messages), current.request, current.messages);
      hide PastLog, SessionLog, OneWholeSnapshot, SessionFrom;
    }
  }

  lemma Follows(before: seq<StateEvent>, during: seq<StateEvent>, request: string, ms: seq<Message>)
    requires OneWholeSnapshot(during, request, ms)
    ensures SessionFrom(before + ([Connected] + during), |before|, request, ms)
  {
    hide WholeSnapshot;
    var log, b := before + ([Connected] + during), |before|;
    assert log[b] == Connected && forall k :: b < k < |log| ==> log[k] == during[k - b - 1];
  }

  lemma SnapshotIsCurrent(log: seq<StateEvent>, b: int, i: int, current: Attempt)
    requires current.Session? && SessionFrom(log, b, current.request, current.messages)
    requires b < i < |log| && log[i].SnapshotApplied?
    ensures CurrentSnapshot(log, b, i, current)
  {
    hide NobodyTwice, MadeFrom, ChunksOf;
  }

  lemma ServedIsInSession(log: seq<StateEvent>, b: int, c: int, i: int, request: string, ms: seq<Message>)
    requires SessionFrom(log, b, request, ms) && ServedSince(log, c, i)
    ensures c == b
  {
    hide NobodyTwice, MadeFrom, ChunksOf;
  }

  lemma ServedNeedsSession(log: seq<StateEvent>, c: int, i: int)
    requires ServedSince(log, c, i)
    ensures !log[|log| - 1].Disconnected?
  {}

  /** For any sequence of sessions and any moment in the current one: state is served iff the current session has applied
      a snapshot. That snapshot is the only one since the connect, made of chunks that this session has read, all of one
      snapshot in index order, without repeated participants; and each lookup is its entry, overridden by the last
      relevant event received after it. */
  lemma ServedStateMeaning(past: seq<Attempt>, current: Attempt)
    ensures var log := StateLog(past, current); var p := Replay(log);
      && (p.connected && p.applied <==> exists b, j :: CurrentSnapshot(log, b, j, current))
      && (forall b, j :: CurrentSnapshot(log, b, j, current) ==> forall c, s :: ServedFor(log, j, c, s))
  {
    var log := StateLog(past, current);
    ServedMeaning(log);
    LogShape(past, current);
    hide StateLog, PastLog, Replay, ServedFor, SessionFrom, WholeSnapshot;
    if c, i :| ServedSince(log, c, i) {
      ServedNeedsSession(log, c, i);
      ServedIsInSession(log, |PastLog(past)|, c, i, current.request, current.messages);
      SnapshotIsCurrent(log, |PastLog(past)|, i, current);
    }
    forall b, j | CurrentSnapshot(log, b, j, current) ensures ServedSince(log, b, j) {
      SnapshotServes(log, b, j, current);
    }
    forall b, j, c, s | CurrentSnapshot(log, b, j, current) ensures ServedFor(log, j, c, s) {
      ServedFromSnapshot(log, b, j, current, c, s);
    }
  }

  lemma SnapshotServes(log: seq<StateEvent>, b: int, j: int, current: Attempt)
    requires CurrentSnapshot(log, b, j, current)
    ensures ServedSince(log, b, j)
  {
    hide NobodyTwice, MadeFrom, ChunksOf;
  }

  lemma {:induction false} SessionHappeningsAreValid(held: Option<Assembly>, request: string, ms: seq<Message>, k: nat)
    requires k <= |ms| && Holds(held, request, ChunksOf(ms[..k]))
    ensures forall e :: e in SessionLog(held, request, ms[k..]) ==> ValidHappening(e)
    decreases |ms| - k
  {
    if k < |ms| {
      var (held', out, going) := HandleMessage(held, request, ms[k]);
      MessageEffect(held, request, ms, k);
      SessionLogUnfolds(held, request, ms, k);
      if going { SessionHappeningsAreValid(held', request, ms, k + 1); }
      forall e | e in out ensures ValidHappening(e) {
        if e.SnapshotApplied? {
          var n :| 0 <= n <= |ms| && MadeFrom(e.channels, request, ChunksOf(ms[..n]));
          MadeIsListed(e.channels, request, ChunksOf(ms[..n]));
        }
      }
      hide HandleMessage, SessionLog, ValidHappening, WholeSnapshot, Holds, Full;
    }
  }

  lemma {:induction false} PastHappeningsAreValid(past: seq<Attempt>)
    ensures forall e :: e in PastLog(past) ==> ValidHappening(e)
  {
    if past != [] {
      PastHappeningsAreValid(past[..|past| - 1]);
      var a := past[|past| - 1];
      if a.Session? { SoFarIsValid(a.request, a.messages); }
      assert ValidHappening(Disconnected);
      hide ValidHappening, SessionSoFar;
    }
  }

  lemma SoFarIsValid(request: string, ms: seq<Message>)
    ensures forall e :: e in SessionSoFar(request, ms) ==> ValidHappening(e)
  {
    assert ms[0..] == ms;
    SessionHappeningsAreValid(None, request, ms, 0);
    assert ValidHappening(Connected);
    hide ValidHappening, SessionLog;
  }

  /** Whatever the Relay sends, over any sequence of sessions: no sender is zero and every state is joined, talking or idle. */
  lemma ServedIsWellFormed(past: seq<Attempt>, current: Attempt)
    ensures var m := Replay(StateLog(past, current)).channels;
      forall c, s :: c in m && s in m[c] ==> s != 0 && (m[c][s] == "joined" || m[c][s] == "talking" || m[c][s] == "idle")
  {
    var log := StateLog(past, current);
    PastHappeningsAreValid(past);
    if current.Session? { SoFarIsValid(current.request, current.messages); }
    hide ValidHappening, PastLog, SessionSoFar;
    forall i | 0 <= i < |log| ensures ValidHappening(log[i]) {
      assert log[i] in log;
    }
    hide StateLog, Replay;
    ServedStateIsWellFormed(log);
  }

  /** A snapshot whose one chunk lists a channel without participants is valid, and the state served has an empty entry. */
  lemma EmptyChannelIsServed(request: string, id: string, c: U32)
    requires ValidMessageId(request) && ValidMessageId(id)
    ensures var chunk := Chunk(request, id, 0, 1, Some([Channel(c, [])]));
      var p := Replay(StateLog([], Session(request, [ChunkMessage(chunk)])));
      ValidChunk(chunk) && p.connected && p.applied && p.channels == map[c := map[]]
  {
    hide ValidMessageId;
    var cs := [Channel(c, [])];
    var chunk := Chunk(request, id, 0, 1, Some(cs));
    assert Concat(map[0 := cs], 0) == [] && Concat(map[0 := cs], 1) == cs;
    assert cs[..0] == [] && Pairs(cs) == [];
    assert ValidChunk(chunk) && Handle(None, request, chunk).1 == Complete(cs);
    hide Handle, ValidChunk;
    OneMessage(request, chunk, cs);
    hide StateLog;
    TwoHappenings(cs);
    assert ProjectSnapshot(cs) == map[c := map[]];
  }

  lemma OneMessage(request: string, chunk: Chunk, cs: seq<Channel>)
    requires Handle(None, request, chunk).1 == Complete(cs)
    ensures StateLog([], Session(request, [ChunkMessage(chunk)])) == [Connected, SnapshotApplied(cs)]
  {
    hide Handle;
    var ms := [ChunkMessage(chunk)];
    assert SessionLog(None, request, ms) == [SnapshotApplied(cs)] by {
      assert ms[1..] == [];
      assert SessionLog(Handle(None, request, chunk).0, request, []) == [];
    }
    hide SessionLog;
    assert SessionSoFar(request, ms) == [Connected] + [SnapshotApplied(cs)];
    assert PastLog([]) == [];
  }

  lemma TwoHappenings(cs: seq<Channel>)
    ensures Replay([Connected, SnapshotApplied(cs)]) == Projection(true, true, ProjectSnapshot(cs))
  {
    hide ProjectSnapshot;
    var log := [Connected, SnapshotApplied(cs)];
    assert log[..1] == [Connected] && [Connected][..0] == [];
    assert Replay([Connected]) == Projection(true, false, map[]);
  }

  /** What has happened up to message i, and what the rest of the session will add, is the whole session. */
  ghost predicate OnTheWay(log: seq<StateEvent>, whole: seq<StateEvent>, held: Option<Assembly>, request: string,
                           ms: seq<Message>, i: nat, going: bool)
    requires i <= |ms|
  {
    log + (if going then SessionLog(held, request, ms[i..]) else []) == whole
  }

  lemma SessionStarts(before: seq<StateEvent>, request: string, ms: seq<Message>)
    ensures OnTheWay(before + [Connected], before + SessionSoFar(request, ms), None, request, ms, 0, true)
  {
    assert ms[0..] == ms;
  }

  lemma SessionStep(log: seq<StateEvent>, whole: seq<StateEvent>, held: Option<Assembly>, request: string,
                    ms: seq<Message>, i: nat)
    requires i < |ms| && OnTheWay(log, whole, held, request, ms, i, true)
    ensures var (held', out, going) := HandleMessage(held, request, ms[i]);
      OnTheWay(log + out, whole, held', request, ms, i + 1, going)
  {
    hide HandleMessage;
    assert ms[i..][0] == ms[i] && ms[i..][1..] == ms[i + 1..];
    var (held', out, going) := HandleMessage(held, request, ms[i]);
    var rest := if going then SessionLog(held', request, ms[i + 1..]) else [];
    assert (log + out) + rest == log + (out + rest);
  }

  lemma SessionEnds(log: seq<StateEvent>, whole: seq<StateEvent>, held: Option<Assembly>, request: string,
                    ms: seq<Message>, i: nat, going: bool)
    requires i <= |ms| && OnTheWay(log, whole, held, request, ms, i, going) && (i == |ms| || !going)
    ensures log == whole
  {}

  /** A whole session, from the handshake to its end, whatever ends it. */
  method RunSession(state: ManagementState, request: string, messages: seq<Message>)
    requires state.Valid() && (state.liveEvents != null ==> state.liveEvents.Valid())
    modifies state, state.liveEvents
    ensures state.Valid() && (state.liveEvents != null ==> state.liveEvents.Valid())
    ensures state.liveEvents == old(state.liveEvents)
    ensures state.log == old(state.log) + SessionSoFar(request, messages) + [Disconnected]
  {
    hide HandleMessage, Replay, ValidAssembly, OnTheWay, SessionSoFar;
    ghost var whole := state.log + SessionSoFar(request, messages);
    SessionStarts(state.log, request, messages);
    state.MarkConnected();
    var held: SnapshotReassembly? := null;
    var i, going := 0, true;
    while i < |messages| && going
      invariant 0 <= i <= |messages|
      invariant state.Valid() && state.liveEvents == old(state.liveEvents)
      invariant state.liveEvents != null ==> state.liveEvents.Valid()
      invariant held != null ==> fresh(held) && ValidAssembly(held.View())
      invariant OnTheWay(state.log, whole, HeldBy(held), request, messages, i, going)
      decreases |messages| - i
    {
      SessionStep(state.log, whole, HeldBy(held), request, messages, i);
      going, held := HandleStateMessage(state, held, request, messages[i]);
      i := i + 1;
    }
    SessionEnds(state.log, whole, HeldBy(held), request, messages, i, going);
    state.MarkDisconnected();
  }
}
