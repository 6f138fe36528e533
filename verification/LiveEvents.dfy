/** The live event hub: every subscriber gets a gap-free block of the stamped events, or is cut off when it stalls. */
module LiveEvents {
  import opened Wrappers
  import opened Collections
  import opened Text
  import opened Commands
  import opened Authorizers
  import opened LifecycleEvents

  const BUFFER: nat := 32
  const MAXIMUM_SUBSCRIBERS: nat := 128
  const LAST_EVENT_ID: nat := 0xFFFF_FFFF_FFFF_FFFF

  datatype ManagementEvent = ManagementEvent(eventId: string, event: LifecycleEvent)

  predicate Visible(viewer: Service, e: ManagementEvent) {
    CanReceiveEvent(viewer, e.event.channelId, e.event.eventType)
  }

  function VisibleOf(viewer: Service, es: seq<ManagementEvent>): seq<ManagementEvent> {
    if es == [] then []
    else VisibleOf(viewer, es[..|es| - 1]) + (if Visible(viewer, es[|es| - 1]) then [es[|es| - 1]] else [])
  }

  /** One subscriber's channel and the request that drains it. `start`, `taken`, `cut` and `sent` record history:
      what had been published at subscription, what was received, what had been published at close,
      and how many received events were filtered and written without error. */
  datatype Stream = Stream(
    viewer: Service, start: nat, taken: seq<ManagementEvent>, buffer: seq<ManagementEvent>,
    open: bool, cut: nat, written: seq<ManagementEvent>, sent: nat, serving: bool)

  ghost function End(s: Stream, published: seq<ManagementEvent>): nat {
    if s.open then |published| else s.cut
  }

  /** Received plus buffered is exactly what was published from the subscription to now, or to the cut-off;
      what was written is the visible part of a prefix of what was received. */
  ghost predicate Faithful(s: Stream, published: seq<ManagementEvent>) {
    && s.start <= End(s, published) <= |published|
    && s.taken + s.buffer == published[s.start..End(s, published)]
    && |s.buffer| <= BUFFER
    && s.sent <= |s.taken| && s.written == VisibleOf(s.viewer, s.taken[..s.sent])
    && (s.serving ==> s.sent == |s.taken|)
  }

  predicate HasNumber(e: ManagementEvent, n: nat) { e.eventId == Decimal(n) }

  ghost predicate Stamped(published: seq<ManagementEvent>) {
    forall i :: 0 <= i < |published| ==> HasNumber(published[i], i + 1)
  }

  ghost predicate OnlyChanges(before: map<nat, Stream>, after: map<nat, Stream>, id: nat, s: Stream) {
    && after.Keys == before.Keys + {id} && after[id] == s
    && forall k :: k in before && k != id ==> after[k] == before[k]
  }

  /** Event IDs never repeat. */
  lemma EventIdsAreUnique(published: seq<ManagementEvent>, i: nat, j: nat)
    requires Stamped(published) && i < j < |published|
    ensures published[i].eventId != published[j].eventId
  {
    assert HasNumber(published[i], i + 1) && HasNumber(published[j], j + 1);
    if published[i].eventId == published[j].eventId {
      DecimalIsInjective(i + 1, j + 1);
    }
  }

  ghost predicate Ascending(at: seq<nat>) {
    forall j, k :: 0 <= j < k < |at| ==> at[j] < at[k]
  }

  /** `at` lists exactly the positions of the visible events, in increasing order. */
  ghost predicate VisibleAt(viewer: Service, es: seq<ManagementEvent>, at: seq<nat>) {
    Ascending(at) && forall i: nat :: i in at <==> i < |es| && Visible(viewer, es[i])
  }

  /** The filter keeps order and repeats nothing: it yields the events at exactly the visible positions, ascending. */
  lemma {:induction false} FilterIsExact(viewer: Service, es: seq<ManagementEvent>) returns (at: seq<nat>)
    ensures VisibleAt(viewer, es, at)
    ensures |VisibleOf(viewer, es)| == |at|
    ensures forall k :: 0 <= k < |at| ==> at[k] < |es| && VisibleOf(viewer, es)[k] == es[at[k]]
  {
    at := [];
    if es != [] {
      var n := |es| - 1;
      var earlier := FilterIsExact(viewer, es[..n]);
      at := if Visible(viewer, es[n]) then earlier + [n] else earlier;
      OneMoreVisible(viewer, es, earlier);
      hide VisibleAt, Visible;
      assert VisibleOf(viewer, es) == VisibleOf(viewer, es[..n]) + (if Visible(viewer, es[n]) then [es[n]] else []);
      hide VisibleOf;
      forall k | 0 <= k < |at| ensures at[k] < |es| && VisibleOf(viewer, es)[k] == es[at[k]] {
        if k < |earlier| { assert es[..n][earlier[k]] == es[earlier[k]]; }
      }
    }
  }

  lemma OneMoreVisible(viewer: Service, es: seq<ManagementEvent>, at: seq<nat>)
    requires es != [] && VisibleAt(viewer, es[..|es| - 1], at)
    ensures VisibleAt(viewer, es, if Visible(viewer, es[|es| - 1]) then at + [|es| - 1] else at)
  {
    hide Visible;
    var n: nat := |es| - 1;
    assert forall i :: 0 <= i < n ==> es[..n][i] == es[i];
    assert forall k :: 0 <= k < |at| ==> at[k] in at;
    assert Ascending(at + [n]);
    hide Ascending;
    assert forall i: nat :: i in at + [n] <==> i in at || i == n;
  }

  /** A service may open the stream iff there is an event it could be sent. */
  lemma MayOpenIffSomethingVisible(viewer: Service)
    ensures CanOpenEventStream(viewer) <==> exists c: Option<U32>, t :: KnownType(t) && CanReceiveEvent(viewer, c, t)
  {
    assert KnownType(HEALTH_CHANGED) && KnownType(JOINED);
    if HEALTH in viewer.globalPermissions {
      assert CanReceiveEvent(viewer, None, HEALTH_CHANGED);
    } else if ReadsEvents(viewer) && viewer.channels != {} {
      var c :| c in viewer.channels;
      assert CanReceiveEvent(viewer, Some(c), JOINED);
    }
  }

  /** What one publish does to one stream: a stalled subscriber is closed, any other one gets the event. */
  function Offer(s: Stream, e: ManagementEvent, published: nat): Stream {
    if !s.open then s
    else if |s.buffer| < BUFFER then s.(buffer := s.buffer + [e])
    else s.(open := false, cut := published)
  }

  lemma OfferKeeps(s: Stream, e: ManagementEvent, published: seq<ManagementEvent>)
    requires Faithful(s, published)
    ensures Faithful(Offer(s, e, |published|), published + [e])
  {
    var more := published + [e];
    if s.open && |s.buffer| < BUFFER {
      assert more[s.start..|more|] == published[s.start..|published|] + [e];
      assert s.taken + (s.buffer + [e]) == (s.taken + s.buffer) + [e];
    } else {
      assert more[s.start..End(s, published)] == published[s.start..End(s, published)];
    }
  }

  function NewStream(viewer: Service, published: nat): Stream {
    Stream(viewer, published, [], [], true, 0, [], 0, true)
  }

  function Close(s: Stream, published: nat): Stream {
    if s.open then s.(open := false, cut := published) else s
  }

  /** What one turn of a request's select meets: the request's end, or the channel and a write that works or fails. */
  datatype Turn = ContextDone | Receive(writeOk: bool)

  /** One turn of a request's receive loop: leave, wait, end after a close, skip an event out of scope, or write it. */
  function Serve(s: Stream, turn: Turn): Stream {
    if turn.ContextDone? then s.(serving := false)
    else if s.buffer == [] then s.(serving := s.open)
    else
      var e := s.buffer[0];
      var t := s.(taken := s.taken + [e], buffer := s.buffer[1..]);
      if !Visible(s.viewer, e) then t.(sent := |t.taken|)
      else if turn.writeOk then t.(sent := |t.taken|, written := s.written + [e])
      else t.(serving := false)
  }

  lemma NewStreamIsFaithful(viewer: Service, published: seq<ManagementEvent>)
    ensures Faithful(NewStream(viewer, |published|), published)
  {}

  lemma CloseKeeps(s: Stream, published: seq<ManagementEvent>)
    requires Faithful(s, published)
    ensures Faithful(Close(s, |published|), published)
  {}

  lemma ServeKeeps(s: Stream, turn: Turn, published: seq<ManagementEvent>)
    requires Faithful(s, published) && s.serving
    ensures Faithful(Serve(s, turn), published)
  {
    hide Visible;
    if turn.Receive? && s.buffer != [] {
      var t := Serve(s, turn);
      assert t.taken + t.buffer == s.taken + s.buffer;
      assert t.taken[..|s.taken|] == s.taken == s.taken[..|s.taken|];
      assert t.taken[..|t.taken|] == t.taken;
    }
  }

  /** What a request has written is the visible part, in order, of a gap-free block that begins at its subscription;
      and everything up to the cut-off can still be received. */
  lemma WrittenIsFilteredBlock(s: Stream, published: seq<ManagementEvent>)
    requires Faithful(s, published)
    ensures s.start + s.sent <= |published| && s.written == VisibleOf(s.viewer, published[s.start..s.start + s.sent])
    ensures |s.taken| + |s.buffer| == End(s, published) - s.start
  {
    var block := published[s.start..End(s, published)];
    assert |s.taken + s.buffer| == |block|;
    assert s.taken[..s.sent] == (s.taken + s.buffer)[..s.sent] == block[..s.sent] == published[s.start..s.start + s.sent];
  }

  /** What an event must be for a viewer to see it: an event of a channel in scope, for the roles that read events; or the
      Relay's health, for those who may read it. */
  ghost predicate InScope(viewer: Service, e: ManagementEvent) {
    match e.event.channelId
    case Some(c) =>
      && c in viewer.channels
      && (viewer.apiRole == "viewer" || viewer.apiRole == "recorder" || viewer.apiRole == "operator" || viewer.apiRole == "auditor")
    case None => e.event.eventType == "relay_health_changed" && "health.read" in viewer.globalPermissions
  }

  /** An event that the request has dealt with is written iff it is in the viewer's scope; and nothing else is written. */
  lemma WrittenIffInScope(s: Stream, published: seq<ManagementEvent>)
    requires Faithful(s, published)
    ensures s.start + s.sent <= |published|
    ensures forall i :: s.start <= i < s.start + s.sent ==> (published[i] in s.written <==> InScope(s.viewer, published[i]))
    ensures forall e :: e in s.written ==> exists i :: s.start <= i < s.start + s.sent && published[i] == e
  {
    WrittenIsFilteredBlock(s, published);
    var block := published[s.start..s.start + s.sent];
    hide VisibleOf, Faithful, InScope;
    forall i | s.start <= i < s.start + s.sent ensures published[i] in s.written <==> InScope(s.viewer, published[i]) {
      assert block[i - s.start] == published[i];
      FilterContains(s.viewer, block, published[i]);
      SeenIffInScope(s.viewer, published[i]);
    }
    forall e | e in s.written ensures exists i :: s.start <= i < s.start + s.sent && published[i] == e {
      FilterContains(s.viewer, block, e);
      var k :| 0 <= k < |block| && block[k] == e;
      assert published[s.start + k] == e;
    }
  }

  lemma {:induction false} FilterContains(viewer: Service, es: seq<ManagementEvent>, e: ManagementEvent)
    ensures e in VisibleOf(viewer, es) <==> e in es && Visible(viewer, e)
  {
    hide Visible;
    if es != [] {
      FilterContains(viewer, es[..|es| - 1], e);
      assert es == es[..|es| - 1] + [es[|es| - 1]];
    }
  }

  lemma SeenIffInScope(viewer: Service, e: ManagementEvent)
    ensures Visible(viewer, e) <==> InScope(viewer, e)
  {}

  /** A publish cuts a subscriber off exactly when 32 of its events are undelivered. */
  lemma CutOffIffStalled(s: Stream, e: ManagementEvent, published: seq<ManagementEvent>)
    requires Faithful(s, published) && s.open
    ensures !Offer(s, e, |published|).open <==> |published| - s.start - |s.taken| == 32
  {
    assert |s.taken + s.buffer| == |published[s.start..]|;
  }

  /** A request goes on after a turn iff its context lives and it is not done: with nothing to receive, while its channel is
      open; after an event, unless that was in scope and could not be written. One event at a time leaves the channel. */
  lemma GoesOnIff(s: Stream, turn: Turn)
    requires s.serving
    ensures var t := Serve(s, turn);
      && (t.serving <==>
            turn.Receive? && if s.buffer == [] then s.open else turn.writeOk || !InScope(s.viewer, s.buffer[0]))
      && t.taken + t.buffer == s.taken + s.buffer
      && (if turn == ContextDone || s.buffer == [] then t.buffer == s.buffer else t.buffer == s.buffer[1..])
  {
    if s.buffer != [] { SeenIffInScope(s.viewer, s.buffer[0]); }
    hide Visible, InScope;
  }

  /** `n` turns of a request whose writes work. */
  ghost function Turns(s: Stream, n: nat): Stream {
    if n == 0 then s else Serve(Turns(s, n - 1), Receive(true))
  }

  lemma {:induction false} TurnsReceive(s: Stream, n: nat, published: seq<ManagementEvent>)
    requires Faithful(s, published) && s.serving && n <= |s.buffer|
    ensures var t := Turns(s, n);
      && Faithful(t, published) && t.serving && t.taken + t.buffer == s.taken + s.buffer && |t.buffer| == |s.buffer| - n
      && t.open == s.open && t.cut == s.cut && t.start == s.start && t.viewer == s.viewer
  {
    if n > 0 {
      TurnsReceive(s, n - 1, published);
      ReceivesOne(Turns(s, n - 1), published);
      hide Faithful, Serve;
    }
  }

  lemma ReceivesOne(s: Stream, published: seq<ManagementEvent>)
    requires Faithful(s, published) && s.serving && s.buffer != []
    ensures var t := Serve(s, Receive(true));
      && Faithful(t, published) && t.serving && t.taken + t.buffer == s.taken + s.buffer && |t.buffer| == |s.buffer| - 1
      && t.open == s.open && t.cut == s.cut && t.start == s.start && t.viewer == s.viewer
  {
    ServeKeeps(s, Receive(true), published);
    hide Faithful, Visible;
  }

  /** With writes that work, as many turns as there are events waiting deliver all that was published from the subscription
      to now, or to the cut-off; a request that was cut off then ends, any other one waits. */
  lemma EverythingIsDelivered(s: Stream, published: seq<ManagementEvent>)
    requires Faithful(s, published) && s.serving
    ensures var t := Turns(s, |s.buffer|); var block := published[s.start..End(s, published)];
      && t.buffer == [] && t.taken == block && t.written == VisibleOf(s.viewer, block)
      && (Turns(s, |s.buffer| + 1).serving <==> s.open)
  {
    TurnsReceive(s, |s.buffer|, published);
    var t := Turns(s, |s.buffer|);
    GoesOnIff(t, Receive(true));
    assert t.taken[..|t.taken|] == t.taken;
    hide VisibleOf, Serve;
  }

  lemma StampNext(published: seq<ManagementEvent>, e: ManagementEvent)
    requires Stamped(published) && HasNumber(e, |published| + 1)
    ensures Stamped(published + [e])
  {
    hide HasNumber;
  }

  /** Every stream is faithful, and the subscriber map holds exactly the open ones. */
  ghost predicate StreamsInv(nextSubId: nat, subscribers: set<nat>, streams: map<nat, Stream>,
                             published: seq<ManagementEvent>) {
    && (forall id :: id in streams ==> 1 <= id <= nextSubId && Faithful(streams[id], published))
    && (forall id :: id in subscribers <==> id in streams && streams[id].open)
  }

  lemma ReplaceKeeps(n: nat, subscribers: set<nat>, streams: map<nat, Stream>, published: seq<ManagementEvent>,
                     id: nat, s: Stream)
    requires StreamsInv(n, subscribers, streams, published) && id in streams
    requires s.open == streams[id].open && Faithful(s, published)
    ensures StreamsInv(n, subscribers, streams[id := s], published) && OnlyChanges(streams, streams[id := s], id, s)
  {
    hide Faithful;
  }

  lemma OfferedKeep(n: nat, before: map<nat, Stream>, streams: map<nat, Stream>, subscribers: set<nat>,
                    e: ManagementEvent, published: seq<ManagementEvent>)
    requires forall id :: id in before ==> 1 <= id <= n && Faithful(before[id], published)
    requires streams.Keys == before.Keys && forall id :: id in streams ==> streams[id] == Offer(before[id], e, |published|)
    requires forall id :: id in subscribers <==> id in streams && streams[id].open
    ensures StreamsInv(n, subscribers, streams, published + [e])
  {
    hide Faithful, Offer;
    forall id | id in streams ensures Faithful(streams[id], published + [e]) {
      OfferKeeps(before[id], e, published);
    }
  }

  /** What a publish of `input` makes of the hub: nothing once the IDs are used up, otherwise the event is stamped
      with the next ID and offered to every stream. */
  ghost predicate Publishes(published: seq<ManagementEvent>, streams: map<nat, Stream>,
                            published': seq<ManagementEvent>, streams': map<nat, Stream>, input: LifecycleEvent) {
    if |published| == 0xFFFF_FFFF_FFFF_FFFF then published' == published && streams' == streams
    else
      var e := ManagementEvent(Decimal(|published| + 1), input);
      && published' == published + [e] && streams'.Keys == streams.Keys
      && forall id :: id in streams' ==> streams'[id] == Offer(streams[id], e, |published|)
  }

  lemma AddKeeps(n: nat, subscribers: set<nat>, streams: map<nat, Stream>, published: seq<ManagementEvent>, viewer: Service)
    requires StreamsInv(n, subscribers, streams, published)
    ensures var more := streams[n + 1 := NewStream(viewer, |published|)];
      && n + 1 !in streams && StreamsInv(n + 1, subscribers + {n + 1}, more, published)
      && OnlyChanges(streams, more, n + 1, NewStream(viewer, |published|))
  {
    NewStreamIsFaithful(viewer, published);
    hide Faithful;
  }

  class LiveEventHub {
    var nextEventId: nat
    var nextSubId: nat
    /** IDs in the subscriber map. */
    var subscribers: set<nat>
    /** Every channel ever handed out, by subscriber ID. */
    var streams: map<nat, Stream>
    ghost var published: seq<ManagementEvent>

    ghost predicate Valid()
      reads this
    {
      && nextEventId == |published| <= LAST_EVENT_ID && Stamped(published)
      && |subscribers| <= MAXIMUM_SUBSCRIBERS && StreamsInv(nextSubId, subscribers, streams, published)
    }

    constructor ()
      ensures Valid() && published == [] && streams == map[] && subscribers == {}
    {
      nextEventId, nextSubId, subscribers, streams, published := 0, 0, {}, map[], [];
    }

    method Subscribe(viewer: Service) returns (id: Option<nat>)
      requires Valid()
      modifies this
      ensures Valid() && published == old(published)
      ensures id.None? <==> |old(subscribers)| == 128
      ensures id.None? ==> streams == old(streams)
      ensures id.Some? ==> id.value !in old(streams)
      ensures id.Some? ==> OnlyChanges(old(streams), streams, id.value, NewStream(viewer, |published|))
    {
      hide Faithful, Stamped, StreamsInv, OnlyChanges;
      if |subscribers| >= MAXIMUM_SUBSCRIBERS { return None; }
      AddKeeps(nextSubId, subscribers, streams, published, viewer);
      nextSubId := nextSubId + 1;
      subscribers := subscribers + {nextSubId};
      streams := streams[nextSubId := NewStream(viewer, nextEventId)];
      id := Some(nextSubId);
    }

    /** Removes and closes a subscriber that is still in the map; a closed one is left alone. */
    method Unsubscribe(id: nat)
      requires Valid() && id in streams
      modifies this
      ensures Valid() && published == old(published)
      ensures OnlyChanges(old(streams), streams, id, Close(old(streams)[id], |published|))
    {
      hide Faithful, Stamped;
      if id in subscribers {
        assert streams[id].open;
        CloseKeeps(streams[id], published);
        subscribers := subscribers - {id};
        streams := streams[id := Close(streams[id], nextEventId)];
      }
    }

    /** Stamps the event and offers it to every subscriber; only one with 32 undelivered events is cut off. */
    method Publish(input: LifecycleEvent)
      requires Valid()
      modifies this
      ensures Valid()
      ensures Publishes(old(published), old(streams), published, streams, input)
    {
      hide Faithful, Stamped, Decimal, Offer;
      if nextEventId == LAST_EVENT_ID { return; }
      nextEventId := nextEventId + 1;
      var event := ManagementEvent(Decimal(nextEventId), input);
      ghost var before := streams;
      streams, subscribers := OfferToAll(streams, subscribers, event, nextEventId - 1);
      OfferedKeep(nextSubId, before, streams, subscribers, event, published);
      StampNext(published, event);
      published := published + [event];
    }

    /** One turn of the request's receive loop. */
    method ServeNext(id: nat, turn: Turn) returns (going: bool)
      requires Valid() && id in streams && streams[id].serving
      modifies this
      ensures Valid() && published == old(published)
      ensures var t := Serve(old(streams)[id], turn);
        OnlyChanges(old(streams), streams, id, if t.serving then t else Close(t, |published|)) && going == t.serving
    {
      hide Faithful, Stamped, Visible;
      ServeKeeps(streams[id], turn, published);
      var s := streams[id];
      ReplaceKeeps(nextSubId, subscribers, streams, published, id, Serve(s, turn));
      hide StreamsInv;
      if turn.ContextDone? {
        streams := streams[id := s.(serving := false)];
        Unsubscribe(id);
        return false;
      }
      if s.buffer == [] {
        streams := streams[id := s.(serving := s.open)];
        return s.open;
      }
      var event := s.buffer[0];
      var t := s.(taken := s.taken + [event], buffer := s.buffer[1..]);
      if !Visible(s.viewer, event) {
        streams := streams[id := t.(sent := |t.taken|)];
        return true;
      }
      if !turn.writeOk {
        streams := streams[id := t.(serving := false)];
        Unsubscribe(id);
        return false;
      }
      streams := streams[id := t.(sent := |t.taken|, written := s.written + [event])];
      going := true;
    }
  }

  /** The loop of `publish` over the subscriber map, in any order: each open channel is sent to or closed once. */
  method OfferToAll(before: map<nat, Stream>, live: set<nat>, event: ManagementEvent, published: nat)
    returns (streams: map<nat, Stream>, subscribers: set<nat>)
    requires forall id :: id in live <==> id in before && before[id].open
    ensures streams.Keys == before.Keys && |subscribers| <= |live|
    ensures forall id :: id in streams ==> streams[id] == Offer(before[id], event, published)
    ensures forall id :: id in subscribers <==> id in streams && streams[id].open
  {
    streams, subscribers := before, live;
    var left := live;
    while left != {}
      invariant left <= subscribers <= live
      invariant streams.Keys == before.Keys
      invariant forall id :: id in streams ==>
        streams[id] == if id in left then before[id] else Offer(before[id], event, published)
      invariant forall id :: id in subscribers <==> id in streams && streams[id].open
    {
      var id :| id in left;
      assert streams[id].open;
      if |streams[id].buffer| < BUFFER {
        streams := streams[id := streams[id].(buffer := streams[id].buffer + [event])];
      } else {
        subscribers := subscribers - {id};
        streams := streams[id := streams[id].(open := false, cut := published)];
      }
      left := left - {id};
    }
    SubsetSize(subscribers, live);
  }
}
