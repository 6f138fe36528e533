/** Where an applied snapshot comes from: the chunks that the session has read, and nothing else. */
module SnapshotOrigins {
  import opened Wrappers
  import opened Commands
  import opened Snapshots

  /** The channels of a list of chunks, one chunk after the other. */
  function Joined(us: seq<Chunk>): seq<Channel> {
    if us == [] then [] else Joined(us[..|us| - 1]) + ChannelsOf(us[|us| - 1])
  }

  predicate ListedState(s: string) { s == "joined" || s == "talking" || s == "idle" }

  /** A chunk that is acceptable on its own, field by field. */
  ghost predicate AcceptableChunk(s: Chunk, request: string) {
    && s.inReplyTo == request && ValidMessageId(request) && ValidMessageId(s.snapshotId)
    && 1 <= s.count <= 64 && 0 <= s.index < s.count && s.channels.Some?
    && forall c, p :: c in s.channels.value && p in c.participants ==> p.senderId != 0 && ListedState(p.state)
  }

  /** The chunks of one snapshot, each acceptable as a reply to one request: one ID, one count, no index twice. */
  ghost predicate OneSnapshot(got: seq<Chunk>, request: string, id: string, n: int) {
    && (forall i :: 0 <= i < |got| ==> AcceptableChunk(got[i], request) && got[i].snapshotId == id && got[i].count == n)
    && (forall i, j :: 0 <= i < j < |got| ==> got[i].index != got[j].index)
  }

  ghost predicate InOrder(us: seq<Chunk>, got: seq<Chunk>, n: int) {
    && |us| == n == |got|
    && (forall i :: 0 <= i < n ==> us[i].index == i && us[i] in got)
    && (forall s :: s in got ==> 0 <= s.index < n && us[s.index] == s)
  }

  /** `cs` is the chunks of one whole snapshot, put in index order and joined. */
  ghost predicate MadeFrom(cs: seq<Channel>, request: string, got: seq<Chunk>) {
    exists us, id, n :: n >= 1 && OneSnapshot(got, request, id, n) && InOrder(us, got, n) && cs == Joined(us)
  }

  ghost predicate Collects(r: Assembly, request: string, got: seq<Chunk>) {
    1 <= r.count <= 64 && OneSnapshot(got, request, r.snapshotId, r.count) && r.chunks == Collected(got)
  }

  /** What a session holds after the chunks it has taken. */
  ghost predicate Holds(held: Option<Assembly>, request: string, got: seq<Chunk>) {
    match held
    case None => got == []
    case Some(r) => got != [] && Collects(r, request, got)
  }

  lemma CollectsIsValid(r: Assembly, request: string, got: seq<Chunk>)
    requires Collects(r, request, got)
    ensures ValidAssembly(r) && |r.chunks| == |got|
  {
    forall k | k in r.chunks ensures k < r.count {
      CollectedKeys(got, k);
    }
    CollectedSize(got);
  }

  // In index order.

  lemma FullIsInOrder(got: seq<Chunk>, request: string, id: string, n: U16) returns (us: seq<Chunk>)
    requires 1 <= n <= 64 && OneSnapshot(got, request, id, n) && |Collected(got)| == n
    ensures InOrder(us, got, n)
  {
    var r := Assembly(id, n, Collected(got));
    CollectsIsValid(r, request, got);
    FullMeansComplete(r);
    us := [];
    for k := 0 to n
      invariant |us| == k && forall i :: 0 <= i < k ==> us[i].index == i && us[i] in got
    {
      CollectedKeys(got, k);
      var i :| 0 <= i < |got| && got[i].index == k;
      us := us + [got[i]];
    }
    forall s | s in got ensures 0 <= s.index < n && us[s.index] == s {
      var i :| 0 <= i < |got| && got[i] == s;
      var j :| 0 <= j < |got| && got[j] == us[s.index];
    }
  }

  lemma {:induction false} JoinedIsConcat(us: seq<Chunk>, got: seq<Chunk>, n: int, k: nat)
    requires InOrder(us, got, n) && DistinctIndices(got) && k <= n
    ensures Joined(us[..k]) == Concat(Collected(got), k)
  {
    if k > 0 {
      JoinedIsConcat(us, got, n, k - 1);
      assert us[..k][..k - 1] == us[..k - 1];
      var i :| 0 <= i < |got| && got[i] == us[k - 1];
      CollectedAt(got, i);
    }
  }

  lemma CompleteIsMade(got: seq<Chunk>, request: string, id: string, n: U16)
    requires 1 <= n <= 64 && OneSnapshot(got, request, id, n) && |Collected(got)| == n
    ensures MadeFrom(Concat(Collected(got), n), request, got)
  {
    var us := FullIsInOrder(got, request, id, n);
    JoinedIsConcat(us, got, n, n);
    assert us[..n] == us;
    hide OneSnapshot, InOrder, Collected, Concat;
  }

  // Nobody twice.

  /** Entry j of channel list i names this participant. */
  ghost predicate NamesAt(cs: seq<Channel>, i: int, j: int, c: U32, p: U32) {
    0 <= i < |cs| && 0 <= j < |cs[i].participants| && cs[i].channelId == c && cs[i].participants[j].senderId == p
  }

  /** No participant of a channel is listed at two places. */
  ghost predicate NobodyTwice(cs: seq<Channel>) {
    forall i, j, k, l, c: U32, p: U32 :: NamesAt(cs, i, j, c, p) && NamesAt(cs, k, l, c, p) ==> i == k && j == l
  }

  lemma {:induction false} PairIffNamed(cs: seq<Channel>, c: U32, p: U32)
    ensures (c, p) in Pairs(cs) <==> exists i, j :: NamesAt(cs, i, j, c, p)
  {
    if cs != [] {
      var init, last := cs[..|cs| - 1], cs[|cs| - 1];
      PairIffNamed(init, c, p);
      if (c, p) in Pairs(init) {
        var i, j :| NamesAt(init, i, j, c, p);
        assert NamesAt(cs, i, j, c, p);
      }
      if (c, p) in ChannelPairs(last) {
        var j :| 0 <= j < |ChannelPairs(last)| && ChannelPairs(last)[j] == (c, p);
        assert NamesAt(cs, |cs| - 1, j, c, p);
      }
      if i, j :| NamesAt(cs, i, j, c, p) {
        if i < |init| {
          assert NamesAt(init, i, j, c, p);
        } else {
          assert ChannelPairs(last)[j] == (c, p);
        }
      }
    }
  }

  lemma {:induction false} UniqueIffNobodyTwice(cs: seq<Channel>)
    ensures Unique(Pairs(cs)) <==> NobodyTwice(cs)
  {
    if cs != [] {
      var init, last := cs[..|cs| - 1], cs[|cs| - 1];
      UniqueIffNobodyTwice(init);
      UniqueSplits(Pairs(init), ChannelPairs(last));
      if Unique(Pairs(cs)) {
        LastRepeatsNobody(cs);
      }
      if NobodyTwice(cs) {
        LastIsNew(cs);
      }
      hide Unique, NobodyTwice, ChannelPairs;
    }
  }

  ghost predicate Apart<T(!new)>(a: seq<T>, b: seq<T>) {
    forall i, j :: 0 <= i < |a| && 0 <= j < |b| ==> a[i] != b[j]
  }

  lemma UniqueSplits<T(!new)>(a: seq<T>, b: seq<T>)
    ensures Unique(a + b) <==> Unique(a) && Unique(b) && Apart(a, b)
  {
    var ab := a + b;
    assert forall i :: 0 <= i < |a| ==> ab[i] == a[i];
    if Unique(ab) {
      forall i, j | 0 <= i < |a| && 0 <= j < |b| ensures a[i] != b[j] {
        assert ab[i] != ab[|a| + j];
      }
      forall i, j | 0 <= i < j < |b| ensures b[i] != b[j] {
        assert ab[|a| + i] != ab[|a| + j];
      }
    }
    if Unique(a) && Unique(b) && Apart(a, b) {
      forall i, j | 0 <= i < j < |ab| ensures ab[i] != ab[j] {
        if j >= |a| { assert ab[j] == b[j - |a|]; }
        if i >= |a| { assert ab[i] == b[i - |a|]; }
      }
    }
  }

  lemma LastRepeatsNobody(cs: seq<Channel>)
    requires cs != [] && NobodyTwice(cs[..|cs| - 1])
    requires var last := ChannelPairs(cs[|cs| - 1]); Unique(last) && Apart(Pairs(cs[..|cs| - 1]), last)
    ensures NobodyTwice(cs)
  {
    var init, last := cs[..|cs| - 1], cs[|cs| - 1];
    forall i, j, k, l, c: U32, p: U32 | NamesAt(cs, i, j, c, p) && NamesAt(cs, k, l, c, p) ensures i == k && j == l {
      PairIffNamed(init, c, p);
      if i < |init| { assert NamesAt(init, i, j, c, p); } else { assert ChannelPairs(last)[j] == (c, p); }
      if k < |init| { assert NamesAt(init, k, l, c, p); } else { assert ChannelPairs(last)[l] == (c, p); }
    }
  }

  lemma LastIsNew(cs: seq<Channel>)
    requires cs != [] && NobodyTwice(cs)
    ensures NobodyTwice(cs[..|cs| - 1]) && Unique(ChannelPairs(cs[|cs| - 1]))
    ensures Apart(Pairs(cs[..|cs| - 1]), ChannelPairs(cs[|cs| - 1]))
  {
    var n := |cs| - 1;
    var init, last := cs[..n], cs[n];
    assert forall i, j, c: U32, p: U32 :: NamesAt(init, i, j, c, p) ==> NamesAt(cs, i, j, c, p);
    var pairs := ChannelPairs(last);
    forall j, l | 0 <= j < l < |pairs| ensures pairs[j] != pairs[l] {
      assert NamesAt(cs, n, j, pairs[j].0, pairs[j].1) && NamesAt(cs, n, l, pairs[l].0, pairs[l].1);
    }
    forall m, l | 0 <= m < |Pairs(init)| && 0 <= l < |pairs| ensures Pairs(init)[m] != pairs[l] {
      var x := Pairs(init)[m];
      PairIffNamed(init, x.0, x.1);
      var i, j :| NamesAt(init, i, j, x.0, x.1);
      assert NamesAt(cs, i, j, x.0, x.1);
      assert pairs[l] == x ==> NamesAt(cs, n, l, x.0, x.1);
    }
  }

  // One chunk.

  /** It continues what has been taken: the same snapshot, another index. */
  ghost predicate Continues(s: Chunk, got: seq<Chunk>) {
    forall g :: g in got ==> g.snapshotId == s.snapshotId && g.count == s.count && g.index != s.index
  }

  lemma ChannelsAreListed(cs: seq<Channel>)
    ensures ValidChannels(cs) <==> forall c, p :: c in cs && p in c.participants ==> p.senderId != 0 && ListedState(p.state)
  {
    if ValidChannels(cs) {
      forall c, p | c in cs && p in c.participants ensures p.senderId != 0 && ListedState(p.state) {
        var i :| 0 <= i < |cs| && cs[i] == c;
        var j :| 0 <= j < |c.participants| && c.participants[j] == p;
        assert cs[i].participants[j] == p;
      }
    } else {
      var i, j :| 0 <= i < |cs| && 0 <= j < |cs[i].participants|
        && !(cs[i].participants[j].senderId != 0 && ValidState(cs[i].participants[j].state));
      assert cs[i] in cs && cs[i].participants[j] in cs[i].participants;
    }
  }

  lemma AcceptableIsValid(s: Chunk, request: string)
    ensures ValidChunk(s) && s.inReplyTo == request <==> AcceptableChunk(s, request)
  {
    if s.channels.Some? { ChannelsAreListed(s.channels.value); }
    hide ValidMessageId, ValidChannels, ListedState;
  }

  lemma ContinuesIff(r: Assembly, request: string, got: seq<Chunk>, s: Chunk)
    requires Collects(r, request, got) && (got == [] ==> r.snapshotId == s.snapshotId && r.count == s.count)
    ensures Continues(s, got) <==> r.snapshotId == s.snapshotId && r.count == s.count && s.index !in r.chunks
  {
    CollectedKeys(got, s.index);
    hide Collected;
    assert got != [] ==> got[0] in got;
    assert forall i :: 0 <= i < |got| ==> got[i] in got;
    if r.snapshotId == s.snapshotId && r.count == s.count && s.index !in r.chunks {
      forall g | g in got ensures g.snapshotId == s.snapshotId && g.count == s.count && g.index != s.index {
        var i :| 0 <= i < |got| && got[i] == g;
      }
    }
  }

  lemma OneMoreChunk(r: Assembly, request: string, got: seq<Chunk>, s: Chunk)
    requires Collects(r, request, got) && r.snapshotId == s.snapshotId && r.count == s.count && s.index !in r.chunks
    requires AcceptableChunk(s, request)
    ensures Collects(Assembly(s.snapshotId, s.count, Collected(got + [s])), request, got + [s])
    ensures Collected(got + [s]) == r.chunks[s.index := s.channels.value]
  {
    assert (got + [s])[..|got|] == got;
    forall i | 0 <= i < |got| ensures got[i].index != s.index {
      CollectedKeys(got, s.index);
    }
  }

  lemma NextAdds(r: Assembly, request: string, got: seq<Chunk>, s: Chunk)
    requires Collects(r, request, got) && Continues(s, got)
    requires got == [] ==> r.snapshotId == s.snapshotId && r.count == s.count
    requires AcceptableChunk(s, request)
    ensures var more := got + [s]; var all := Concat(Collected(more), s.count);
      && AddChunk(r, s) == (Assembly(s.snapshotId, s.count, Collected(more)),
                            if |more| != s.count then Incomplete
                            else if Unique(Pairs(all)) then Complete(all) else Rejected(DuplicateParticipant))
      && Collects(AddChunk(r, s).0, request, more)
      && (|more| == s.count ==> Full(Some(AddChunk(r, s).0)) && MadeFrom(all, request, more))
  {
    ContinuesIff(r, request, got, s);
    OneMoreChunk(r, request, got, s);
    var more := got + [s];
    CollectsIsValid(Assembly(s.snapshotId, s.count, Collected(more)), request, more);
    hide Collected, Concat, Pairs, Unique, Continues, OneSnapshot;
    if |more| == s.count { CompleteIsMade(more, request, s.snapshotId, s.count); }
    hide MadeFrom;
  }

  lemma OtherIsRejected(r: Assembly, s: Chunk)
    requires s.channels.Some? && !(s.snapshotId == r.snapshotId && s.count == r.count && s.index !in r.chunks)
    ensures AddChunk(r, s).1.Rejected?
  {}

  lemma AddIsTakenIff(r: Assembly, request: string, got: seq<Chunk>, s: Chunk)
    requires Collects(r, request, got) && (got == [] ==> r.snapshotId == s.snapshotId && r.count == s.count)
    requires AcceptableChunk(s, request)
    ensures var (r', p) := AddChunk(r, s); var all := Concat(Collected(got + [s]), s.count);
      && (!p.Rejected? <==> Continues(s, got) && (|got| + 1 == s.count ==> Unique(Pairs(all))))
      && (!p.Rejected? ==> Holds(Some(r'), request, got + [s]))
      && (p.Complete? <==> !p.Rejected? && |got| + 1 == s.count)
      && (p.Complete? ==> Full(Some(r')) && Unique(Pairs(p.channels)) && MadeFrom(p.channels, request, got + [s]))
  {
    ContinuesIff(r, request, got, s);
    hide AddChunk, Collected, Concat, Pairs, Unique, MadeFrom, Collects, Continues, Full, OneSnapshot;
    if Continues(s, got) {
      NextAdds(r, request, got, s);
    } else {
      OtherIsRejected(r, s);
      assert AddChunk(r, s).1.Rejected?;
    }
  }

  /** A session takes a chunk iff it is acceptable, continues what was taken before, and does not complete a snapshot that
      lists a participant twice. It then holds one chunk more; and it applies a snapshot exactly when that was the last. */
  lemma ChunkIsTakenIff(held: Option<Assembly>, request: string, got: seq<Chunk>, s: Chunk)
    requires Holds(held, request, got)
    ensures var (held', p) := Handle(held, request, s); var all := Concat(Collected(got + [s]), s.count);
      && (!p.Rejected? <==> AcceptableChunk(s, request) && Continues(s, got) && (|got| + 1 == s.count ==> NobodyTwice(all)))
      && (!p.Rejected? ==> Holds(held', request, got + [s]))
      && (p.Complete? <==> !p.Rejected? && |got| + 1 == s.count)
      && (p.Complete? ==> Full(held') && NobodyTwice(p.channels) && MadeFrom(p.channels, request, got + [s]))
  {
    AcceptableIsValid(s, request);
    if AcceptableChunk(s, request) {
      var r := if held.None? then Assembly(s.snapshotId, s.count, map[]) else held.value;
      AcceptedIsAdded(held, request, got, s, r);
      hide Handle, AddChunk, ValidChunk, Collected, Concat, Pairs, Unique, MadeFrom, Collects, Holds, Full, Continues;
      AddIsTakenIff(r, request, got, s);
      UniqueIffNobodyTwice(Concat(Collected(got + [s]), s.count));
      if AddChunk(r, s).1.Complete? { UniqueIffNobodyTwice(AddChunk(r, s).1.channels); }
      hide NobodyTwice;
    } else {
      hide ValidChunk, AcceptableChunk, Holds, MadeFrom, NobodyTwice, Concat, Collected, Continues;
    }
  }

  lemma AcceptedIsAdded(held: Option<Assembly>, request: string, got: seq<Chunk>, s: Chunk, r: Assembly)
    requires Holds(held, request, got) && AcceptableChunk(s, request) && ValidChunk(s)
    requires r == if held.None? then Assembly(s.snapshotId, s.count, map[]) else held.value
    ensures Collects(r, request, got) && (got == [] ==> r.snapshotId == s.snapshotId && r.count == s.count)
    ensures Handle(held, request, s) == (Some(AddChunk(r, s).0), AddChunk(r, s).1)
  {
    hide ValidChunk, AddChunk;
  }

  lemma {:induction false} JoinedComesFrom(us: seq<Chunk>, c: Channel)
    requires c in Joined(us)
    ensures exists i :: 0 <= i < |us| && c in ChannelsOf(us[i])
  {
    if us != [] && c in Joined(us[..|us| - 1]) {
      JoinedComesFrom(us[..|us| - 1], c);
      var i :| 0 <= i < |us| - 1 && c in ChannelsOf(us[..|us| - 1][i]);
      assert us[i] == us[..|us| - 1][i];
    }
  }

  /** An applied snapshot lists no sender 0 and no state but joined, talking and idle. */
  lemma MadeIsListed(cs: seq<Channel>, request: string, got: seq<Chunk>)
    requires MadeFrom(cs, request, got)
    ensures ValidChannels(cs)
  {
    var us, id, n :| n >= 1 && OneSnapshot(got, request, id, n) && InOrder(us, got, n) && cs == Joined(us);
    forall c, p | c in cs && p in c.participants ensures p.senderId != 0 && ListedState(p.state) {
      JoinedComesFrom(us, c);
      var i :| 0 <= i < |us| && c in ChannelsOf(us[i]);
      var j :| 0 <= j < |got| && got[j] == us[i];
      assert AcceptableChunk(got[j], request);
    }
    ChannelsAreListed(cs);
  }
}
