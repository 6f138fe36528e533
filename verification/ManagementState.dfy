/** The live projection of Relay state: rebuilt by each snapshot, then updated by lifecycle events. */
module ManagementStates {
  import opened Wrappers
  import opened Commands
  import opened Snapshots
  import opened LifecycleEvents
  import opened LiveEvents

  type Participants = map<U32, string>
  type Channels = map<U32, Participants>

  datatype StateEvent =
    | Connected
    | Disconnected
    | SnapshotApplied(channels: seq<Channel>)
    | Lifecycle(event: LifecycleEvent)

  // The projection as the program computes it.

  function AddParticipants(m: Participants, ps: seq<Participant>): Participants {
    if ps == [] then m
    else AddParticipants(m, ps[..|ps| - 1])[ps[|ps| - 1].senderId := ps[|ps| - 1].state]
  }

  function EntryOf(m: Channels, c: U32): Participants {
    if c in m then m[c] else map[]
  }

  function ProjectSnapshot(cs: seq<Channel>): Channels {
    if cs == [] then map[]
    else
      var m, c := ProjectSnapshot(cs[..|cs| - 1]), cs[|cs| - 1];
      m[c.channelId := AddParticipants(EntryOf(m, c.channelId), c.participants)]
  }

  /** An event with a channel and a sender first makes sure the channel has an entry, and only a departure removes one. */
  function ProjectEvent(m: Channels, e: LifecycleEvent): Channels {
    if e.channelId.None? || e.senderId.None? then m
    else
      var c, s := e.channelId.value, e.senderId.value;
      var ps := EntryOf(m, c);
      if e.eventType == JOINED then m[c := ps[s := "idle"]]
      else if e.eventType == LEFT then
        if ps - {s} == map[] then m - {c} else m[c := ps - {s}]
      else if e.eventType == TALK_STARTED then m[c := ps[s := "talking"]]
      else if e.eventType == TALK_ENDED && s in ps then m[c := ps[s := "idle"]]
      else m[c := ps]
  }

  datatype Projection = Projection(connected: bool, applied: bool, channels: Channels)

  function Advance(p: Projection, e: StateEvent): Projection {
    match e
    case Connected => Projection(true, false, map[])
    case Disconnected => p.(connected := false)
    case SnapshotApplied(cs) => p.(applied := true, channels := ProjectSnapshot(cs))
    case Lifecycle(event) => p.(channels := ProjectEvent(p.channels, event))
  }

  function Replay(log: seq<StateEvent>): Projection {
    if log == [] then Projection(false, false, map[]) else Advance(Replay(log[..|log| - 1]), log[|log| - 1])
  }

  /** The inner loop of `applyRelayStateSnapshot`: the participants of one channel entry. */
  method FillParticipants(before: Participants, ps: seq<Participant>) returns (participants: Participants)
    ensures participants == AddParticipants(before, ps)
  {
    participants := before;
    for j := 0 to |ps|
      invariant participants == AddParticipants(before, ps[..j])
    {
      assert ps[..j + 1][..j] == ps[..j];
      participants := participants[ps[j].senderId := ps[j].state];
    }
    assert ps[..|ps|] == ps;
  }

  class ManagementState {
    var connected: bool
    var snapshotApplied: bool
    var channels: Channels
    var liveEvents: LiveEventHub?
    ghost var log: seq<StateEvent>

    ghost predicate Valid()
      reads this
    {
      Projection(connected, snapshotApplied, channels) == Replay(log)
    }

    constructor ()
      ensures Valid() && log == [] && liveEvents == null
    {
      connected, snapshotApplied, channels, liveEvents, log := false, false, map[], null, [];
    }

    method SetLiveEvents(events: LiveEventHub?)
      requires Valid()
      modifies this`liveEvents
      ensures Valid() && liveEvents == events
    {
      liveEvents := events;
    }

    method MarkConnected()
      requires Valid()
      modifies `connected, `snapshotApplied, `channels, `log
      ensures Valid() && log == old(log) + [Connected]
    {
      connected, channels, snapshotApplied := true, map[], false;
      log := log + [Connected];
    }

    method MarkDisconnected()
      requires Valid()
      modifies `connected, `log
      ensures Valid() && log == old(log) + [Disconnected]
    {
      connected := false;
      log := log + [Disconnected];
    }

    /** The part of `recordLifecycleEvent` that edits the nested map. */
    method UpdateChannels(e: LifecycleEvent)
      modifies `channels
      ensures channels == ProjectEvent(old(channels), e)
    {
      if e.channelId.Some? && e.senderId.Some? {
        var c, s := e.channelId.value, e.senderId.value;
        if c !in channels { channels := channels[c := map[]]; }
        if e.eventType == JOINED {
          channels := channels[c := channels[c][s := "idle"]];
        } else if e.eventType == LEFT {
          channels := channels[c := channels[c] - {s}];
          if channels[c] == map[] { channels := channels - {c}; }
        } else if e.eventType == TALK_STARTED {
          channels := channels[c := channels[c][s := "talking"]];
        } else if e.eventType == TALK_ENDED {
          if s in channels[c] { channels := channels[c := channels[c][s := "idle"]]; }
        }
      }
    }

    /** Updates the projection, then publishes the event to the hub, if there is one. */
    method RecordLifecycleEvent(e: LifecycleEvent)
      requires Valid() && (liveEvents != null ==> liveEvents.Valid())
      modifies `channels, `log, if liveEvents == null then {} else {liveEvents}
      ensures Valid() && log == old(log) + [Lifecycle(e)]
      ensures liveEvents != null ==>
        && liveEvents.Valid()
        && Publishes(old(liveEvents.published), old(liveEvents.streams), liveEvents.published, liveEvents.streams, e)
    {
      hide ProjectEvent;
      UpdateChannels(e);
      log := log + [Lifecycle(e)];
      assert log[..|log| - 1] == old(log);
      assert Valid();
      if liveEvents != null { liveEvents.Publish(e); }
    }

    method ApplyRelayStateSnapshot(cs: seq<Channel>)
      requires Valid()
      modifies `snapshotApplied, `channels, `log
      ensures Valid() && log == old(log) + [SnapshotApplied(cs)]
    {
      var projection: Channels := map[];
      for i := 0 to |cs|
        invariant projection == ProjectSnapshot(cs[..i]) && log == old(log) && connected == old(connected)
      {
        assert cs[..i + 1][..i] == cs[..i];
        var c := cs[i].channelId;
        var participants := FillParticipants(if c in projection then projection[c] else map[], cs[i].participants);
        projection := projection[c := participants];
      }
      assert cs[..|cs|] == cs;
      channels, snapshotApplied := projection, true;
      log := log + [SnapshotApplied(cs)];
      assert log[..|log| - 1] == old(log);
    }

    /** The state served to the API: nothing until a snapshot has been applied since the last connect. */
    method ManagementApiChannelState() returns (served: Option<Channels>)
      requires Valid()
      ensures served == if Replay(log).connected && Replay(log).applied then Some(Replay(log).channels) else None
    {
      if !connected || !snapshotApplied { return None; }
      var copy: Channels := map[];
      var left := channels.Keys;
      while left != {}
        invariant left <= channels.Keys && copy.Keys == channels.Keys - left
        invariant forall c :: c in copy ==> copy[c] == channels[c]
      {
        var c :| c in left;
        var participants: Participants := map[];
        var senders := channels[c].Keys;
        while senders != {}
          invariant senders <= channels[c].Keys && participants.Keys == channels[c].Keys - senders
          invariant forall s :: s in participants ==> participants[s] == channels[c][s]
        {
          var s :| s in senders;
          participants := participants[s := channels[c][s]];
          senders := senders - {s};
        }
        assert participants == channels[c];
        copy := copy[c := participants];
        left := left - {c};
      }
      assert copy == channels;
      served := Some(copy);
    }
  }

  // The specification: one participant at a time.

  function Lookup(m: Channels, c: U32, s: U32): Option<string> {
    if c in m && s in m[c] then Some(m[c][s]) else None
  }

  /** The last entry a list gives for a sender. */
  function LastListed(ps: seq<Participant>, s: U32): Option<string> {
    if ps == [] then None
    else if ps[|ps| - 1].senderId == s then Some(ps[|ps| - 1].state)
    else LastListed(ps[..|ps| - 1], s)
  }

  /** The last entry a snapshot gives for a participant. */
  function Listed(cs: seq<Channel>, c: U32, s: U32): Option<string> {
    if cs == [] then None
    else
      var last := cs[|cs| - 1];
      if last.channelId == c && LastListed(last.participants, s).Some? then LastListed(last.participants, s)
      else Listed(cs[..|cs| - 1], c, s)
  }

  ghost predicate Concerns(e: LifecycleEvent, c: U32, s: U32) {
    e.channelId == Some(c) && e.senderId == Some(s)
  }

  /** How one happening changes one participant. */
  ghost function Affect(x: Option<string>, e: StateEvent, c: U32, s: U32): Option<string> {
    match e
    case Connected => None
    case Disconnected => x
    case SnapshotApplied(cs) => Listed(cs, c, s)
    case Lifecycle(event) =>
      if !Concerns(event, c, s) then x
      else if event.eventType == JOINED then Some("idle")
      else if event.eventType == LEFT then None
      else if event.eventType == TALK_STARTED then Some("talking")
      else if event.eventType == TALK_ENDED && x.Some? then Some("idle")
      else x
  }

  ghost function ParticipantState(log: seq<StateEvent>, c: U32, s: U32): Option<string> {
    if log == [] then None else Affect(ParticipantState(log[..|log| - 1], c, s), log[|log| - 1], c, s)
  }

  lemma {:induction false} AddParticipantsLooksUp(m: Participants, ps: seq<Participant>, s: U32)
    ensures var r := AddParticipants(m, ps);
      if LastListed(ps, s).Some? then s in r && Some(r[s]) == LastListed(ps, s)
      else (s in r <==> s in m) && (s in m ==> r[s] == m[s])
  {
    if ps != [] {
      AddParticipantsLooksUp(m, ps[..|ps| - 1], s);
    }
  }

  lemma {:induction false} ProjectSnapshotLooksUp(cs: seq<Channel>, c: U32, s: U32)
    ensures Lookup(ProjectSnapshot(cs), c, s) == Listed(cs, c, s)
  {
    if cs != [] {
      var init, last := cs[..|cs| - 1], cs[|cs| - 1];
      ProjectSnapshotLooksUp(init, c, s);
      AddParticipantsLooksUp(EntryOf(ProjectSnapshot(init), last.channelId), last.participants, s);
    }
  }

  lemma {:induction false} PairIsListed(cs: seq<Channel>, i: nat, j: nat)
    requires i < |cs| && j < |cs[i].participants|
    ensures (cs[i].channelId, cs[i].participants[j].senderId) in Pairs(cs)
  {
    var init, last := cs[..|cs| - 1], cs[|cs| - 1];
    if i < |init| {
      assert init[i] == cs[i];
      PairIsListed(init, i, j);
    } else {
      assert ChannelPairs(last)[j] == (last.channelId, last.participants[j].senderId);
      assert ChannelPairs(last)[j] in ChannelPairs(last);
    }
  }

  lemma UniqueParts<T(!new)>(a: seq<T>, b: seq<T>)
    requires Unique(a + b)
    ensures Unique(a) && Unique(b) && forall x :: x in a ==> x !in b
  {
    forall i, j | 0 <= i < |a| && 0 <= j < |b| ensures a[i] != b[j] {
      assert (a + b)[i] == a[i] && (a + b)[|a| + j] == b[j];
    }
    forall i, j | 0 <= i < j < |a| ensures a[i] != a[j] {
      assert (a + b)[i] == a[i] && (a + b)[j] == a[j];
    }
    forall i, j | 0 <= i < j < |b| ensures b[i] != b[j] {
      assert (a + b)[|a| + i] == b[i] && (a + b)[|a| + j] == b[j];
    }
  }

  lemma {:induction false} LastListedIsOnly(ps: seq<Participant>, j: nat)
    requires j < |ps| && forall k :: 0 <= k < |ps| && k != j ==> ps[k].senderId != ps[j].senderId
    ensures LastListed(ps, ps[j].senderId) == Some(ps[j].state)
  {
    if j < |ps| - 1 {
      var init := ps[..|ps| - 1];
      assert forall k :: 0 <= k < |init| ==> init[k] == ps[k];
      LastListedIsOnly(init, j);
    }
  }

  /** A snapshot that repeats no participant serves each entry it lists. */
  lemma {:induction false} UniqueEntryIsServed(cs: seq<Channel>, i: nat, j: nat)
    requires Unique(Pairs(cs)) && i < |cs| && j < |cs[i].participants|
    ensures Lookup(ProjectSnapshot(cs), cs[i].channelId, cs[i].participants[j].senderId) == Some(cs[i].participants[j].state)
  {
    var c, s := cs[i].channelId, cs[i].participants[j].senderId;
    ProjectSnapshotLooksUp(cs, c, s);
    var init, last := cs[..|cs| - 1], cs[|cs| - 1];
    UniqueParts(Pairs(init), ChannelPairs(last));
    if i < |init| {
      assert init[i] == cs[i];
      UniqueEntryIsServed(init, i, j);
      ProjectSnapshotLooksUp(init, c, s);
      PairIsListed(init, i, j);
      LastListedIsEntry(last.participants, s);
      assert forall k :: 0 <= k < |last.participants| ==>
        ChannelPairs(last)[k] == (last.channelId, last.participants[k].senderId);
    } else {
      forall k | 0 <= k < |last.participants| && k != j ensures last.participants[k].senderId != s {
        assert ChannelPairs(last)[k] != ChannelPairs(last)[j];
      }
      LastListedIsOnly(last.participants, j);
    }
  }

  lemma ProjectEventLooksUp(m: Channels, e: LifecycleEvent, c: U32, s: U32)
    ensures Lookup(ProjectEvent(m, e), c, s) == Affect(Lookup(m, c, s), Lifecycle(e), c, s)
  {
    if e.channelId == Some(c) && e.senderId.Some? && e.eventType == LEFT {
      var t := e.senderId.value;
      assert EntryOf(m, c) - {t} == map[] && s != t ==> s !in EntryOf(m, c) by {
        assert s in EntryOf(m, c) && s != t ==> s in EntryOf(m, c) - {t};
      }
    }
  }

  /** The whole map is the participants' states, for every history. */
  lemma {:induction false} LookupIsParticipantState(log: seq<StateEvent>, c: U32, s: U32)
    ensures Lookup(Replay(log).channels, c, s) == ParticipantState(log, c, s)
  {
    if log != [] {
      var init, e := log[..|log| - 1], log[|log| - 1];
      LookupIsParticipantState(init, c, s);
      match e {
        case SnapshotApplied(cs) => ProjectSnapshotLooksUp(cs, c, s);
        case Lifecycle(event) => ProjectEventLooksUp(Replay(init).channels, event, c, s);
        case _ =>
      }
    }
  }

  /** An event about one participant changes no other. */
  lemma OthersAreUnaffected(log: seq<StateEvent>, e: LifecycleEvent, c: U32, s: U32)
    requires !Concerns(e, c, s)
    ensures Lookup(Replay(log + [Lifecycle(e)]).channels, c, s) == Lookup(Replay(log).channels, c, s)
  {
    assert (log + [Lifecycle(e)])[..|log|] == log;
    LookupIsParticipantState(log, c, s);
    LookupIsParticipantState(log + [Lifecycle(e)], c, s);
  }

  /** Something that sets a participant's state whatever it was. */
  ghost predicate Decisive(e: StateEvent, c: U32, s: U32) {
    || e.Connected? || e.SnapshotApplied?
    || (e.Lifecycle? && Concerns(e.event, c, s)
        && (e.event.eventType == JOINED || e.event.eventType == LEFT || e.event.eventType == TALK_STARTED))
  }

  ghost predicate EndsTalk(e: StateEvent, c: U32, s: U32) {
    e.Lifecycle? && Concerns(e.event, c, s) && e.event.eventType == TALK_ENDED
  }

  /** The last decisive happening fixes a participant's state; a later end of talk makes a present one idle. */
  lemma {:induction false} LastDecisiveWins(log: seq<StateEvent>, j: nat, c: U32, s: U32)
    requires j < |log| && Decisive(log[j], c, s)
    requires forall k :: j < k < |log| ==> !Decisive(log[k], c, s)
    ensures var fixed := Affect(None, log[j], c, s);
      ParticipantState(log, c, s) ==
        if fixed.Some? && exists k :: j < k < |log| && EndsTalk(log[k], c, s) then Some("idle") else fixed
  {
    var init, e := log[..|log| - 1], log[|log| - 1];
    if j < |log| - 1 {
      assert forall k :: 0 <= k < |init| ==> init[k] == log[k];
      LastDecisiveWins(init, j, c, s);
      if EndsTalk(e, c, s) {
        assert EndsTalk(log[|log| - 1], c, s);
      } else {
        assert (exists k :: j < k < |log| && EndsTalk(log[k], c, s)) <==>
          (exists k :: j < k < |init| && EndsTalk(init[k], c, s));
      }
    }
  }

  /** State is served exactly while connected with a snapshot applied since the last connect. */
  ghost predicate ServedSince(log: seq<StateEvent>, c: int, i: int) {
    && 0 <= c < i < |log| && log[c].Connected? && log[i].SnapshotApplied?
    && forall k :: c < k < |log| ==> !log[k].Connected? && !log[k].Disconnected?
  }

  ghost predicate ConnectedSince(log: seq<StateEvent>, c: int) {
    0 <= c < |log| && log[c].Connected? && forall k :: c < k < |log| ==> !log[k].Connected? && !log[k].Disconnected?
  }

  ghost predicate AppliedSince(log: seq<StateEvent>, i: int) {
    0 <= i < |log| && log[i].SnapshotApplied? && forall k :: i < k < |log| ==> !log[k].Connected?
  }

  lemma {:induction false} FlagsMeaning(log: seq<StateEvent>)
    ensures Replay(log).connected <==> exists c :: ConnectedSince(log, c)
    ensures Replay(log).applied <==> exists i :: AppliedSince(log, i)
  {
    if log != [] {
      var init, e := log[..|log| - 1], log[|log| - 1];
      FlagsMeaning(init);
      assert forall k :: 0 <= k < |init| ==> init[k] == log[k];
      assert forall c :: 0 <= c < |init| && !e.Connected? && !e.Disconnected? ==>
        (ConnectedSince(log, c) <==> ConnectedSince(init, c));
      assert forall i :: 0 <= i < |init| && !e.Connected? ==> (AppliedSince(log, i) <==> AppliedSince(init, i));
      if e.Connected? { assert ConnectedSince(log, |log| - 1); }
      if e.SnapshotApplied? { assert AppliedSince(log, |log| - 1); }
    }
  }

  lemma ServedMeaning(log: seq<StateEvent>)
    ensures Replay(log).connected && Replay(log).applied <==> exists c, i :: ServedSince(log, c, i)
  {
    FlagsMeaning(log);
    if Replay(log).connected && Replay(log).applied {
      var c :| ConnectedSince(log, c);
      var i :| AppliedSince(log, i);
      assert ServedSince(log, c, i);
    }
    if c, i :| ServedSince(log, c, i) {
      assert ConnectedSince(log, c) && AppliedSince(log, i);
    }
  }

  ghost predicate WellFormed(m: Channels) {
    forall c, s :: c in m && s in m[c] ==> s != 0 && ValidState(m[c][s])
  }

  ghost predicate ValidHappening(e: StateEvent) {
    && (e.SnapshotApplied? ==> ValidChannels(e.channels))
    && (e.Lifecycle? ==> ValidLifecycleEvent(e.event))
  }

  lemma {:induction false} ListedIsValid(cs: seq<Channel>, c: U32, s: U32)
    requires ValidChannels(cs)
    ensures Listed(cs, c, s).Some? ==> s != 0 && ValidState(Listed(cs, c, s).value)
  {
    if cs != [] {
      ListedIsValid(cs[..|cs| - 1], c, s);
      LastListedIsEntry(cs[|cs| - 1].participants, s);
    }
  }

  lemma {:induction false} LastListedIsEntry(ps: seq<Participant>, s: U32)
    ensures LastListed(ps, s).Some? ==> exists i :: 0 <= i < |ps| && ps[i] == Participant(s, LastListed(ps, s).value)
  {
    if ps != [] {
      LastListedIsEntry(ps[..|ps| - 1], s);
      if ps[|ps| - 1].senderId == s {
        assert ps[|ps| - 1] == Participant(s, LastListed(ps, s).value);
      }
    }
  }

  lemma {:induction false} ParticipantStateIsValid(log: seq<StateEvent>, c: U32, s: U32)
    requires forall i :: 0 <= i < |log| ==> ValidHappening(log[i])
    ensures ParticipantState(log, c, s).Some? ==> s != 0 && ValidState(ParticipantState(log, c, s).value)
  {
    hide ValidServiceId, KnownType, KnownState, HealthState, ValidReasonText, ValidChannels;
    if log != [] {
      var e := log[|log| - 1];
      assert ValidHappening(e);
      ParticipantStateIsValid(log[..|log| - 1], c, s);
      if e.SnapshotApplied? { ListedIsValid(e.channels, c, s); }
    }
  }

  /** Every served state is well formed: no sender is zero and every state is joined, talking or idle. */
  lemma ServedStateIsWellFormed(log: seq<StateEvent>)
    requires forall i :: 0 <= i < |log| ==> ValidHappening(log[i])
    ensures WellFormed(Replay(log).channels)
  {
    forall c, s | c in Replay(log).channels && s in Replay(log).channels[c]
      ensures s != 0 && ValidState(Replay(log).channels[c][s])
    {
      LookupIsParticipantState(log, c, s);
      ParticipantStateIsValid(log, c, s);
    }
  }

  // Empty channel entries.

  ghost predicate NoEmptyChannel(m: Channels) {
    forall c :: c in m ==> m[c] != map[]
  }

  /** "No empty channel" is kept exactly unless an event other than a join, a talk start or a departure
      names a sender in a channel that has no entry. */
  lemma EmptyChannelAppearsIff(m: Channels, e: LifecycleEvent)
    requires NoEmptyChannel(m)
    ensures NoEmptyChannel(ProjectEvent(m, e)) <==>
      !(e.channelId.Some? && e.senderId.Some? && e.channelId.value !in m
        && e.eventType != JOINED && e.eventType != TALK_STARTED && e.eventType != LEFT)
  {
    if e.channelId.Some? && e.senderId.Some? {
      var c, s := e.channelId.value, e.senderId.value;
      var ps := EntryOf(m, c);
      assert s in ps[s := "idle"] && s in ps[s := "talking"];
      var none: Participants := map[];
      assert none - {s} == none;
      if c !in m && e.eventType != JOINED && e.eventType != TALK_STARTED && e.eventType != LEFT {
        assert ProjectEvent(m, e)[c] == map[];
      }
    }
  }

  ghost predicate EmptyEntry(m: Channels, c: U32) {
    c in m && m[c] == map[]
  }

  /** The snapshot lists the channel, and never with a participant. */
  ghost predicate ListedEmpty(cs: seq<Channel>, c: U32) {
    && (exists i :: 0 <= i < |cs| && cs[i].channelId == c)
    && (forall i :: 0 <= i < |cs| && cs[i].channelId == c ==> cs[i].participants == [])
  }

  lemma {:induction false} AddParticipantsFills(m: Participants, ps: seq<Participant>)
    ensures AddParticipants(m, ps) == map[] <==> m == map[] && ps == []
  {
    if ps != [] {
      assert ps[|ps| - 1].senderId in AddParticipants(m, ps);
    }
  }

  lemma {:induction false} SnapshotLeavesEmptyIff(cs: seq<Channel>, c: U32)
    ensures EmptyEntry(ProjectSnapshot(cs), c) <==> ListedEmpty(cs, c)
    ensures c in ProjectSnapshot(cs) <==> exists i :: 0 <= i < |cs| && cs[i].channelId == c
  {
    if cs != [] {
      var init, last := cs[..|cs| - 1], cs[|cs| - 1];
      SnapshotLeavesEmptyIff(init, c);
      AddParticipantsFills(EntryOf(ProjectSnapshot(init), c), last.participants);
      assert forall i :: 0 <= i < |init| ==> init[i] == cs[i];
      if i :| 0 <= i < |init| && init[i].channelId == c {
        assert cs[i].channelId == c;
      }
      if last.channelId == c {
        assert cs[|cs| - 1].channelId == c;
      }
    }
  }

  ghost predicate Names(e: StateEvent, c: U32) {
    e.Lifecycle? && e.event.channelId == Some(c) && e.event.senderId.Some?
  }

  predicate Moves(e: LifecycleEvent) { e.eventType == JOINED || e.eventType == TALK_STARTED || e.eventType == LEFT }

  ghost predicate Nobody(log: seq<StateEvent>, c: U32) {
    forall s: U32 :: ParticipantState(log, c, s).None?
  }

  /** Happening i leaves an empty entry for the channel: a snapshot that lists it without participants, or an event that
      names it and a sender, moves nobody, and finds nobody there. */
  ghost predicate LeavesEmpty(log: seq<StateEvent>, i: nat, c: U32)
    requires i < |log|
  {
    || (log[i].SnapshotApplied? && ListedEmpty(log[i].channels, c))
    || (Names(log[i], c) && !Moves(log[i].event) && Nobody(log[..i], c))
  }

  /** What fills the entry, removes it, or replaces the map. */
  ghost predicate Disturbs(e: StateEvent, c: U32) {
    e.Connected? || e.SnapshotApplied? || (Names(e, c) && Moves(e.event))
  }

  ghost predicate LeftEmptyAt(log: seq<StateEvent>, i: int, c: U32) {
    0 <= i < |log| && LeavesEmpty(log, i, c) && forall k :: i < k < |log| ==> !Disturbs(log[k], c)
  }

  lemma NobodyMeansNoEntry(log: seq<StateEvent>, c: U32)
    ensures Nobody(log, c) <==> EntryOf(Replay(log).channels, c) == map[]
  {
    var ps := EntryOf(Replay(log).channels, c);
    forall s: U32 ensures ParticipantState(log, c, s).Some? <==> s in ps {
      LookupIsParticipantState(log, c, s);
    }
    if Nobody(log, c) {
      assert forall s :: s !in ps;
    }
  }

  lemma EventLeavesEmptyIff(m: Channels, e: LifecycleEvent, c: U32)
    ensures EmptyEntry(ProjectEvent(m, e), c) <==>
      if !Names(Lifecycle(e), c) then EmptyEntry(m, c) else !Moves(e) && EntryOf(m, c) == map[]
  {
    if Names(Lifecycle(e), c) {
      var s := e.senderId.value;
      assert s in EntryOf(m, c)[s := "idle"] && s in EntryOf(m, c)[s := "talking"];
    }
  }

  /** In every history: a channel has an empty entry iff something left it empty and nothing has disturbed it since. */
  lemma {:induction false} EmptyEntryMeaning(log: seq<StateEvent>, c: U32)
    ensures EmptyEntry(Replay(log).channels, c) <==> exists i :: LeftEmptyAt(log, i, c)
  {
    if log != [] {
      var n := |log| - 1;
      var init, e := log[..n], log[n];
      EmptyEntryMeaning(init, c);
      NobodyMeansNoEntry(init, c);
      assert Replay(log) == Advance(Replay(init), e);
      if e.SnapshotApplied? { SnapshotLeavesEmptyIff(e.channels, c); }
      if e.Lifecycle? { EventLeavesEmptyIff(Replay(init).channels, e.event, c); }
      hide Replay, ProjectSnapshot, ProjectEvent, Nobody, ListedEmpty, Moves;
      LastOrEarlier(log, c);
    }
  }

  lemma LastOrEarlier(log: seq<StateEvent>, c: U32)
    requires log != []
    ensures var n := |log| - 1;
      (exists i :: LeftEmptyAt(log, i, c)) <==>
        LeavesEmpty(log, n, c) || (!Disturbs(log[n], c) && exists i :: LeftEmptyAt(log[..n], i, c))
  {
    hide Nobody, ListedEmpty, Moves;
    var n := |log| - 1;
    var init := log[..n];
    forall i | 0 <= i < n ensures LeftEmptyAt(log, i, c) <==> LeftEmptyAt(init, i, c) && !Disturbs(log[n], c) {
      assert log[..i] == init[..i];
      assert forall k :: i < k < n ==> log[k] == init[k];
    }
    assert LeavesEmpty(log, n, c) ==> LeftEmptyAt(log, n, c);
    if i :| LeftEmptyAt(init, i, c) {
      assert !Disturbs(log[n], c) ==> LeftEmptyAt(log, i, c);
    }
  }
}
