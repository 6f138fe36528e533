/** Relay state snapshots: chunks in any order, reassembled once per session. */
module Snapshots {
  import opened Wrappers
  import opened Collections
  import opened Commands

  type U16 = x: int | 0 <= x < 0x1_0000

  datatype Participant = Participant(senderId: U32, state: string)

  datatype Channel = Channel(channelId: U32, participants: seq<Participant>)

  datatype Chunk = Chunk(inReplyTo: string, snapshotId: string, index: U16, count: U16, channels: Option<seq<Channel>>)

  datatype Rejection = Invalid | Inconsistent | DuplicateChunk | MissingChunk | DuplicateParticipant

  datatype Progress = Incomplete | Complete(channels: seq<Channel>) | Rejected(reason: Rejection)

  /** What one session has collected. */
  datatype Assembly = Assembly(snapshotId: string, count: U16, chunks: map<U16, seq<Channel>>)

  predicate ValidState(s: string) { s == "joined" || s == "talking" || s == "idle" }

  predicate ValidChannels(cs: seq<Channel>) {
    forall i, j :: 0 <= i < |cs| && 0 <= j < |cs[i].participants| ==>
      cs[i].participants[j].senderId != 0 && ValidState(cs[i].participants[j].state)
  }

  predicate ValidChunk(s: Chunk) {
    && ValidMessageId(s.inReplyTo) && ValidMessageId(s.snapshotId)
    && 1 <= s.count <= 64 && s.index < s.count && s.channels.Some? && ValidChannels(s.channels.value)
  }

  /** The chunks below n, in index order. */
  function Concat(chunks: map<U16, seq<Channel>>, n: nat): seq<Channel> {
    if n == 0 then [] else Concat(chunks, n - 1) + (if n - 1 in chunks then chunks[n - 1] else [])
  }

  /** Every (channel, sender) pair listed, in order. */
  function ChannelPairs(c: Channel): seq<(U32, U32)> {
    seq(|c.participants|, i requires 0 <= i < |c.participants| => (c.channelId, c.participants[i].senderId))
  }

  function Pairs(cs: seq<Channel>): seq<(U32, U32)> {
    if cs == [] then [] else Pairs(cs[..|cs| - 1]) + ChannelPairs(cs[|cs| - 1])
  }

  ghost predicate Unique<T(!new)>(xs: seq<T>) {
    forall i, j :: 0 <= i < j < |xs| ==> xs[i] != xs[j]
  }

  ghost predicate ValidAssembly(r: Assembly) {
    && 1 <= r.count <= 64
    && (forall k :: k in r.chunks ==> k < r.count)
  }

  ghost function AddChunk(r: Assembly, s: Chunk): (Assembly, Progress)
    requires s.channels.Some?
  {
    if s.snapshotId != r.snapshotId || s.count != r.count then (r, Rejected(Inconsistent))
    else if s.index in r.chunks then (r, Rejected(DuplicateChunk))
    else
      var r' := r.(chunks := r.chunks[s.index := s.channels.value]);
      var all := Concat(r'.chunks, r.count);
      (r', if |r'.chunks| != r.count then Incomplete
           else if Unique(Pairs(all)) then Complete(all)
           else Rejected(DuplicateParticipant))
  }

  // Pigeonhole: as many keys as slots below the count fill every slot.

  function Below(n: nat): (s: set<U16>)
    requires n <= 64
    ensures forall k :: k in s <==> 0 <= k < n
  {
    if n == 0 then {} else Below(n - 1) + {n - 1}
  }

  lemma {:induction false} BelowSize(n: nat)
    requires n <= 64
    ensures |Below(n)| == n
  {
    if n > 0 {
      BelowSize(n - 1);
    }
  }

  /** The "incomplete" branch of the reassembly cannot be taken. */
  lemma FullMeansComplete(r: Assembly)
    requires ValidAssembly(r) && |r.chunks| == r.count
    ensures forall k: U16 :: k < r.count ==> k in r.chunks
  {
    BelowSize(r.count);
    if k: U16 :| k < r.count && k !in r.chunks {
      SubsetSize(r.chunks.Keys, Below(r.count) - {k});
    }
  }

  class SnapshotReassembly {
    const snapshotId: string
    const chunkCount: U16
    var chunks: map<U16, seq<Channel>>

    ghost function View(): Assembly
      reads this
    {
      Assembly(snapshotId, chunkCount, chunks)
    }

    constructor (first: Chunk)
      ensures View() == Assembly(first.snapshotId, first.count, map[])
    {
      snapshotId, chunkCount, chunks := first.snapshotId, first.count, map[];
    }

    method Add(s: Chunk) returns (p: Progress)
      requires ValidChunk(s) && ValidAssembly(View())
      modifies this
      ensures ValidAssembly(View()) && (View(), p) == AddChunk(old(View()), s)
      ensures p != Rejected(MissingChunk)
    {
      hide ValidMessageId, ValidState;
      if s.snapshotId != snapshotId || s.count != chunkCount { return Rejected(Inconsistent); }
      if s.index in chunks { return Rejected(DuplicateChunk); }
      chunks := chunks[s.index := s.channels.value];
      if |chunks| != chunkCount { return Incomplete; }
      FullMeansComplete(View());
      p := Assemble(chunks, chunkCount);
    }
  }

  /** The second half of `add`: the chunks in index order, unless a participant repeats. */
  method Assemble(chunks: map<U16, seq<Channel>>, count: U16) returns (p: Progress)
    requires forall k: U16 :: k < count ==> k in chunks
    ensures var all := Concat(chunks, count); p == Outcome(all, Unique(Pairs(all)))
  {
    hide Unique, SeenIs, Pairs;
    var channels: seq<Channel> := [];
    var seen: map<U32, set<U32>> := map[];
    NothingRepeats();
    for index := 0 to count
      invariant channels == Concat(chunks, index)
      invariant SeenIs(seen, Pairs(channels)) && Unique(Pairs(channels))
    {
      if index !in chunks { return Rejected(MissingChunk); }
      var ok;
      ok, channels, seen := AppendChunk(chunks[index], channels, seen);
      if !ok {
        RepeatStaysInConcat(chunks, index + 1, count);
        return Rejected(DuplicateParticipant);
      }
    }
    p := Complete(channels);
  }

  /** The channel entries of one chunk. */
  method AppendChunk(chunk: seq<Channel>, before: seq<Channel>, seenBefore: map<U32, set<U32>>)
    returns (ok: bool, channels: seq<Channel>, seen: map<U32, set<U32>>)
    requires SeenIs(seenBefore, Pairs(before)) && Unique(Pairs(before))
    ensures ok <==> Unique(Pairs(before + chunk))
    ensures ok ==> channels == before + chunk && SeenIs(seen, Pairs(channels))
  {
    hide Unique, SeenIs, ChannelPairs;
    channels, seen := before, seenBefore;
    for i := 0 to |chunk|
      invariant channels == before + chunk[..i]
      invariant SeenIs(seen, Pairs(channels)) && Unique(Pairs(channels))
    {
      ok, seen := MarkSeen(chunk[i], seen, Pairs(channels));
      channels := channels + [chunk[i]];
      assert channels[..|channels| - 1] == before + chunk[..i];
      assert channels == before + chunk[..i + 1];
      if !ok {
        assert before + chunk == channels + chunk[i + 1..];
        RepeatStays(channels, chunk[i + 1..]);
        return;
      }
    }
    assert chunk[..|chunk|] == chunk;
    ok := true;
  }

  lemma NothingRepeats()
    ensures SeenIs(map[], Pairs([])) && Unique(Pairs([]))
  {}

  /** `seen` holds exactly the listed pairs. */
  ghost predicate SeenIs(seen: map<U32, set<U32>>, pairs: seq<(U32, U32)>) {
    forall c: U32, s: U32 :: (c in seen && s in seen[c]) <==> (c, s) in pairs
  }

  /** The innermost loop: the participants of one channel entry. */
  method MarkSeen(channel: Channel, before: map<U32, set<U32>>, ghost pairs: seq<(U32, U32)>)
    returns (ok: bool, seen: map<U32, set<U32>>)
    requires SeenIs(before, pairs) && Unique(pairs)
    ensures ok <==> Unique(pairs + ChannelPairs(channel))
    ensures ok ==> SeenIs(seen, pairs + ChannelPairs(channel))
  {
    var c := channel.channelId;
    var ids := if c in before then before[c] else {};
    seen := before[c := ids];
    assert SeenIs(seen, pairs);
    WithFirst(pairs, channel);
    hide SeenIs, Unique, WithFirstOf, ChannelPairs;
    for j := 0 to |channel.participants|
      invariant c in seen
      invariant SeenIs(seen, WithFirstOf(pairs, channel, j)) && Unique(WithFirstOf(pairs, channel, j))
    {
      var sender := channel.participants[j].senderId;
      OneMoreOf(pairs, channel, j);
      OnePairMore(seen, WithFirstOf(pairs, channel, j), c, sender);
      if sender in seen[c] { return false, seen; }
      seen := seen[c := seen[c] + {sender}];
    }
    ok := true;
  }

  /** The pairs listed so far and those of a channel's first `n` participants. */
  ghost function WithFirstOf(pairs: seq<(U32, U32)>, channel: Channel, n: nat): seq<(U32, U32)>
    requires n <= |channel.participants|
  {
    pairs + seq(n, i requires 0 <= i < n => (channel.channelId, channel.participants[i].senderId))
  }

  lemma WithFirst(pairs: seq<(U32, U32)>, channel: Channel)
    ensures WithFirstOf(pairs, channel, 0) == pairs
    ensures WithFirstOf(pairs, channel, |channel.participants|) == pairs + ChannelPairs(channel)
  {}

  lemma OneMoreOf(pairs: seq<(U32, U32)>, channel: Channel, n: nat)
    requires n < |channel.participants|
    ensures WithFirstOf(pairs, channel, n + 1)
         == WithFirstOf(pairs, channel, n) + [(channel.channelId, channel.participants[n].senderId)]
    ensures Unique(pairs + ChannelPairs(channel)) ==> Unique(WithFirstOf(pairs, channel, n + 1))
  {
    var all, first := pairs + ChannelPairs(channel), WithFirstOf(pairs, channel, n + 1);
    assert forall i :: 0 <= i < |first| ==> first[i] == all[i];
  }

  lemma OnePairMore(seen: map<U32, set<U32>>, pairs: seq<(U32, U32)>, c: U32, sender: U32)
    requires SeenIs(seen, pairs) && Unique(pairs) && c in seen
    ensures Unique(pairs + [(c, sender)]) <==> sender !in seen[c]
    ensures SeenIs(seen[c := seen[c] + {sender}], pairs + [(c, sender)])
  {
    assert (c, sender) in pairs <==> sender in seen[c];
    var more := pairs + [(c, sender)];
    if (c, sender) in pairs {
      var i :| 0 <= i < |pairs| && pairs[i] == (c, sender);
      assert more[i] == more[|pairs|];
    }
  }

  lemma PairsOfLast(cs: seq<Channel>, c: Channel)
    ensures Pairs(cs + [c]) == Pairs(cs) + ChannelPairs(c)
  {
    assert (cs + [c])[..|cs|] == cs;
  }

  lemma {:induction false} PairsOfConcat(a: seq<Channel>, b: seq<Channel>)
    ensures Pairs(a + b) == Pairs(a) + Pairs(b)
  {
    hide ChannelPairs;
    if b == [] {
      assert a + b == a;
    } else {
      var init, last := b[..|b| - 1], b[|b| - 1];
      PairsOfConcat(a, init);
      assert b == init + [last];
      assert a + b == (a + init) + [last];
      PairsOfLast(a + init, last);
      PairsOfLast(init, last);
      hide Pairs;
      assert (Pairs(a) + Pairs(init)) + ChannelPairs(last) == Pairs(a) + (Pairs(init) + ChannelPairs(last));
    }
  }

  lemma RepeatStays(a: seq<Channel>, b: seq<Channel>)
    requires !Unique(Pairs(a))
    ensures !Unique(Pairs(a + b))
  {
    PairsOfConcat(a, b);
    var i, j :| 0 <= i < j < |Pairs(a)| && Pairs(a)[i] == Pairs(a)[j];
    assert Pairs(a + b)[i] == Pairs(a + b)[j];
  }

  lemma {:induction false} RepeatStaysInConcat(chunks: map<U16, seq<Channel>>, m: nat, n: nat)
    requires m <= n && !Unique(Pairs(Concat(chunks, m)))
    ensures !Unique(Pairs(Concat(chunks, n)))
  {
    if m < n {
      RepeatStaysInConcat(chunks, m, n - 1);
      RepeatStays(Concat(chunks, n - 1), if n - 1 in chunks then chunks[n - 1] else []);
    }
  }

  // Arrival order.

  /** All the chunks of one snapshot, each once. */
  ghost predicate CompleteSet(id: string, n: U16, ss: seq<Chunk>) {
    && |ss| == n
    && (forall i :: 0 <= i < n ==> ValidChunk(ss[i]) && ss[i].snapshotId == id && ss[i].count == n)
    && (forall i, j :: 0 <= i < j < n ==> ss[i].index != ss[j].index)
  }

  function ChannelsOf(s: Chunk): seq<Channel> {
    if s.channels.Some? then s.channels.value else []
  }

  function Collected(ss: seq<Chunk>): map<U16, seq<Channel>> {
    if ss == [] then map[] else Collected(ss[..|ss| - 1])[ss[|ss| - 1].index := ChannelsOf(ss[|ss| - 1])]
  }

  ghost predicate DistinctIndices(ss: seq<Chunk>) {
    forall i, j :: 0 <= i < j < |ss| ==> ss[i].index != ss[j].index
  }

  ghost predicate HasIndex(ss: seq<Chunk>, k: U16) {
    exists i :: 0 <= i < |ss| && ss[i].index == k
  }

  lemma {:induction false} CollectedKeys(ss: seq<Chunk>, k: U16)
    ensures k in Collected(ss) <==> HasIndex(ss, k)
  {
    if ss != [] {
      var init := ss[..|ss| - 1];
      CollectedKeys(init, k);
      assert forall i :: 0 <= i < |init| ==> init[i] == ss[i];
      if HasIndex(init, k) {
        var i :| 0 <= i < |init| && init[i].index == k;
        assert ss[i].index == k;
      }
    }
  }

  lemma {:induction false} CollectedAt(ss: seq<Chunk>, i: nat)
    requires i < |ss| && DistinctIndices(ss)
    ensures ss[i].index in Collected(ss) && Collected(ss)[ss[i].index] == ChannelsOf(ss[i])
  {
    if i < |ss| - 1 {
      assert ss[..|ss| - 1][i] == ss[i];
      CollectedAt(ss[..|ss| - 1], i);
    }
  }

  lemma {:induction false} CollectedSize(ss: seq<Chunk>)
    requires DistinctIndices(ss)
    ensures |Collected(ss)| == |ss|
  {
    if ss != [] {
      var init, s := ss[..|ss| - 1], ss[|ss| - 1];
      assert forall i :: 0 <= i < |init| ==> init[i] == ss[i];
      CollectedSize(init);
      CollectedKeys(init, s.index);
    }
  }

  function Outcome(all: seq<Channel>, unique: bool): Progress {
    if unique then Complete(all) else Rejected(DuplicateParticipant)
  }

  /** Whatever the order of arrival, each chunk but the last leaves the assembly incomplete, and the last one
      settles it by the concatenation in index order. */
  lemma CompletesExactlyOnLast(id: string, n: U16, ss: seq<Chunk>, k: nat)
    requires CompleteSet(id, n, ss) && k < n
    ensures var (r, p) := AddChunk(Assembly(id, n, Collected(ss[..k])), ss[k]);
      && r == Assembly(id, n, Collected(ss[..k + 1]))
      && p == if k + 1 < n then Incomplete
              else var all := Concat(Collected(ss), n); Outcome(all, Unique(Pairs(all)))
  {
    var before, upTo := ss[..k], ss[..k + 1];
    assert upTo[..k] == before && upTo[k] == ss[k];
    ArrivalIsNew(id, n, ss, k);
    hide CompleteSet, ValidMessageId, ValidChannels, Pairs, Concat, Unique;
    assert k + 1 == n ==> upTo == ss;
  }

  lemma ArrivalIsNew(id: string, n: U16, ss: seq<Chunk>, k: nat)
    requires CompleteSet(id, n, ss) && k < n
    ensures ss[k].snapshotId == id && ss[k].count == n && ss[k].channels.Some? && |ss| == n
    ensures ss[k].index !in Collected(ss[..k]) && |Collected(ss[..k + 1])| == k + 1
  {
    hide ValidMessageId, ValidChannels;
    assert ValidChunk(ss[k]);
    var before, upTo := ss[..k], ss[..k + 1];
    assert forall i :: 0 <= i < k ==> before[i] == ss[i];
    assert forall i :: 0 <= i < k + 1 ==> upTo[i] == ss[i];
    hide ValidChunk, Collected;
    CollectedKeys(before, ss[k].index);
    CollectedSize(upTo);
  }

  /** Two arrival orders of the same chunks settle alike. */
  lemma OrderDoesNotMatter(id: string, n: U16, ss: seq<Chunk>, us: seq<Chunk>)
    requires CompleteSet(id, n, ss) && CompleteSet(id, n, us) && multiset(ss) == multiset(us)
    ensures Collected(ss) == Collected(us)
  {
    hide ValidChunk;
    assert DistinctIndices(ss) && DistinctIndices(us);
    hide CompleteSet;
    CollectedWithin(ss, us);
    CollectedWithin(us, ss);
  }

  lemma CollectedWithin(ss: seq<Chunk>, us: seq<Chunk>)
    requires DistinctIndices(ss) && DistinctIndices(us) && multiset(ss) == multiset(us)
    ensures forall k :: k in Collected(ss) ==> k in Collected(us) && Collected(us)[k] == Collected(ss)[k]
  {
    forall k | k in Collected(ss) ensures k in Collected(us) && Collected(us)[k] == Collected(ss)[k] {
      CollectedKeys(ss, k);
      var i :| 0 <= i < |ss| && ss[i].index == k;
      assert ss[i] in multiset(us);
      var j :| 0 <= j < |us| && us[j] == ss[i];
      hide DistinctIndices, Collected;
      CollectedAt(ss, i);
      CollectedAt(us, j);
    }
  }

  // One session.

  /** What a session does with a snapshot message, and what it then holds; a rejection ends the session. */
  ghost function Handle(held: Option<Assembly>, request: string, s: Chunk): (Option<Assembly>, Progress) {
    if !ValidChunk(s) || s.inReplyTo != request then (held, Rejected(Invalid))
    else
      var r := if held.None? then Assembly(s.snapshotId, s.count, map[]) else held.value;
      var (r', p) := AddChunk(r, s);
      (Some(r'), p)
  }

  /** The snapshots a session applies before it ends. */
  ghost function Applied(held: Option<Assembly>, request: string, ss: seq<Chunk>): seq<seq<Channel>>
    decreases ss
  {
    if ss == [] then []
    else
      var (held', p) := Handle(held, request, ss[0]);
      match p
      case Rejected(_) => []
      case Incomplete => Applied(held', request, ss[1..])
      case Complete(channels) => [channels] + Applied(held', request, ss[1..])
  }

  ghost predicate Full(held: Option<Assembly>) {
    held.Some? && ValidAssembly(held.value) && |held.value.chunks| == held.value.count
  }

  /** Once complete, every later chunk is rejected. */
  lemma FullRejects(held: Option<Assembly>, request: string, s: Chunk)
    requires Full(held)
    ensures Handle(held, request, s).1.Rejected?
  {
    hide ValidMessageId, ValidChannels;
    FullMeansComplete(held.value);
  }

  lemma HandleKeepsValid(held: Option<Assembly>, request: string, s: Chunk)
    requires held.Some? ==> ValidAssembly(held.value)
    ensures var (held', p) := Handle(held, request, s);
      && (held'.Some? ==> ValidAssembly(held'.value))
      && (p.Complete? ==> Full(held') && Unique(Pairs(p.channels)))
      && (p.Complete? ==> p.channels == Concat(held'.value.chunks, held'.value.count))
      && p != Rejected(MissingChunk)
  {
    hide ValidMessageId, ValidChannels;
  }

  ghost predicate FromFullAssembly(a: seq<Channel>) {
    exists r :: ValidAssembly(r) && |r.chunks| == r.count && a == Concat(r.chunks, r.count)
  }

  /** At most one snapshot is applied per session; it comes from a full set of chunks and repeats no participant. */
  lemma {:induction false} AtMostOneApplied(held: Option<Assembly>, request: string, ss: seq<Chunk>)
    requires held.Some? ==> ValidAssembly(held.value)
    ensures |Applied(held, request, ss)| <= 1
    ensures forall a :: a in Applied(held, request, ss) ==> Unique(Pairs(a)) && FromFullAssembly(a)
    decreases ss
  {
    if ss != [] {
      HandleKeepsValid(held, request, ss[0]);
      var (held', p) := Handle(held, request, ss[0]);
      hide Handle, Unique;
      if p.Incomplete? {
        AtMostOneApplied(held', request, ss[1..]);
      } else if p.Complete? {
        assert FromFullAssembly(p.channels);
        FullAppliesNothing(held', request, ss[1..]);
      }
      hide Full, FromFullAssembly;
    }
  }

  lemma FullAppliesNothing(held: Option<Assembly>, request: string, ss: seq<Chunk>)
    requires Full(held)
    ensures Applied(held, request, ss) == []
  {
    hide Handle, Full;
    if ss != [] { FullRejects(held, request, ss[0]); }
  }

  /** A session that receives a complete set of chunks, in any order, applies their concatenation in index order,
      or nothing when a participant repeats. */
  lemma SessionAppliesSet(id: string, n: U16, request: string, ss: seq<Chunk>)
    requires CompleteSet(id, n, ss) && n >= 1 && forall i :: 0 <= i < n ==> ss[i].inReplyTo == request
    ensures var all := Concat(Collected(ss), n);
      Applied(None, request, ss) == if Unique(Pairs(all)) then [all] else []
  {
    assert ss[0..] == ss && ss[..0] == [];
    assert ValidChunk(ss[0]);
    AppliedFrom(id, n, request, ss, 0);
    assert Handle(None, request, ss[0]) == Handle(Some(Assembly(id, n, map[])), request, ss[0]);
    hide Handle, CompleteSet, Unique, Pairs, Concat;
    assert Applied(None, request, ss) == Applied(Some(Assembly(id, n, map[])), request, ss);
  }

  lemma {:induction false} AppliedFrom(id: string, n: U16, request: string, ss: seq<Chunk>, k: nat)
    requires CompleteSet(id, n, ss) && k < n && forall i :: 0 <= i < n ==> ss[i].inReplyTo == request
    ensures var all := Concat(Collected(ss), n);
      Applied(Some(Assembly(id, n, Collected(ss[..k]))), request, ss[k..]) == if Unique(Pairs(all)) then [all] else []
    decreases n - k
  {
    var held := Some(Assembly(id, n, Collected(ss[..k])));
    assert ValidChunk(ss[k]) && ss[k..][0] == ss[k] && ss[k..][1..] == ss[k + 1..];
    CompletesExactlyOnLast(id, n, ss, k);
    assert Handle(held, request, ss[k]) == (Some(Assembly(id, n, Collected(ss[..k + 1]))), AddChunk(held.value, ss[k]).1);
    hide Handle, ValidChunk, Unique, Pairs, Concat, Collected, AddChunk;
    if k + 1 < n {
      AppliedFrom(id, n, request, ss, k + 1);
    }
  }

  /** The order of arrival does not change what a session applies. */
  lemma ArrivalOrderIsIrrelevant(id: string, n: U16, request: string, ss: seq<Chunk>, us: seq<Chunk>)
    requires CompleteSet(id, n, ss) && CompleteSet(id, n, us) && n >= 1 && multiset(ss) == multiset(us)
    requires forall i :: 0 <= i < n ==> ss[i].inReplyTo == request && us[i].inReplyTo == request
    ensures Applied(None, request, ss) == Applied(None, request, us)
  {
    OrderDoesNotMatter(id, n, ss, us);
    SessionAppliesSet(id, n, request, ss);
    SessionAppliesSet(id, n, request, us);
    hide Applied, CompleteSet;
  }
}
