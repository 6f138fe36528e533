/** The durable command store: one JSON file, replaced atomically. */
module CommandStores {
  import opened Wrappers
  import opened Text
  import opened Sorting
  import opened Commands
  import opened Collections

  const MAX_PENDING := 64
  const MAX_STORE_BYTES := MAX_PENDING * 1024
  const STORE_VERSION := 1

  /** How one attempt to replace the file ends. The directory sync follows the rename,
      so a reported failure may leave the old file or the new one. */
  datatype Persist = Committed | FailedKeepingOld | FailedAfterRename

  datatype StoreFile =
    | Missing
    | Undecodable(size: nat)
    | Stored(size: nat, version: int, commands: Option<seq<Revocation>>)

  datatype OpenError =
    | TooLarge | Malformed | UnsupportedFormat | InvalidCommand | DuplicateMessageId | TooManyCommands | PersistFailed

  type Pending = map<string, Revocation>

  function KeyOf(m: Revocation): Key { (m.messageId, 0) }

  /** A pending map the client can reach: bounded, keyed by message ID, every command valid. */
  ghost predicate ValidPending(p: Pending) {
    && |p| <= MAX_PENDING
    && forall id :: id in p ==> p[id].messageId == id && ValidRevocation(p[id])
  }

  ghost predicate SameCommands(cs: seq<Revocation>, p: Pending) {
    && (forall c :: c in cs ==> c.messageId in p && p[c.messageId] == c)
    && (forall id :: id in p ==> p[id] in cs && p[id].messageId == id)
  }

  /** The file names exactly the commands of `p`, each once, and can be loaded again. */
  ghost predicate Holds(file: StoreFile, p: Pending) {
    && ValidPending(p)
    && match file
       case Missing => p == map[]
       case Undecodable(_) => false
       case Stored(size, version, commands) =>
         && size <= MAX_STORE_BYTES && version == STORE_VERSION && commands.Some?
         && DistinctKeys(KeyOf, commands.value) && SameCommands(commands.value, p)
  }

  // JSON text of the whole file.

  function EncodeCommands(cs: seq<Revocation>): string {
    if cs == [] then ""
    else if |cs| == 1 then EncodeRevocation(cs[0])
    else EncodeCommands(cs[..|cs| - 1]) + "," + EncodeRevocation(cs[|cs| - 1])
  }

  function EncodeFile(cs: seq<Revocation>): string {
    "{" + Member("version", Decimal(STORE_VERSION)) + "," + Member("commands", "[" + EncodeCommands(cs) + "]") + "}\n"
  }

  lemma {:induction false} EncodedCommandsBound(cs: seq<Revocation>)
    requires forall c :: c in cs ==> ValidRevocation(c)
    ensures |EncodeCommands(cs)| <= |cs| * (MAX_ENCODED_REVOCATION + 1)
  {
    if cs != [] {
      EncodedRevocationBound(cs[|cs| - 1]);
      EncodedCommandsBound(cs[..|cs| - 1]);
    }
  }

  /** Any 64 valid commands encode to less than half of what load accepts. */
  lemma EncodedFileBound(cs: seq<Revocation>)
    requires |cs| <= MAX_PENDING
    requires forall c :: c in cs ==> ValidRevocation(c)
    ensures |EncodeFile(cs)| * 2 < MAX_STORE_BYTES
  {
    EncodedCommandsBound(cs);
    assert |Decimal(STORE_VERSION)| <= 2 by { DecimalLength(STORE_VERSION, 2); }
  }

  // Loading.

  function Restore(cs: seq<Revocation>, now: int): Result<(Pending, bool), OpenError> {
    if cs == [] then Ok((map[], false))
    else match Restore(cs[..|cs| - 1], now)
      case Err(e) => Err(e)
      case Ok((p, expired)) =>
        var c := cs[|cs| - 1];
        if !ValidRevocation(c) then Err(InvalidCommand)
        else if c.messageId in p then Err(DuplicateMessageId)
        else if c.denyUntil <= now then Ok((p, true))
        else Ok((p[c.messageId := c], expired))
  }

  function LoadFile(file: StoreFile): Result<seq<Revocation>, OpenError> {
    match file
    case Missing => Ok([])
    case Undecodable(size) => Err(if size > MAX_STORE_BYTES then TooLarge else Malformed)
    case Stored(size, version, commands) =>
      if size > MAX_STORE_BYTES then Err(TooLarge)
      else if version != STORE_VERSION || commands.None? then Err(UnsupportedFormat)
      else Ok(commands.value)
  }

  /** What opening the file yields before any rewrite: the live commands, and whether one had expired. */
  function Reopen(file: StoreFile, now: int): Result<(Pending, bool), OpenError> {
    match LoadFile(file)
    case Err(e) => Err(e)
    case Ok(cs) =>
      match Restore(cs, now)
      case Err(e) => Err(e)
      case Ok((p, expired)) => if |p| > MAX_PENDING then Err(TooManyCommands) else Ok((p, expired))
  }

  function Live(p: Pending, now: int): (live: Pending)
    ensures live.Keys <= p.Keys
  {
    map id | id in p && p[id].denyUntil > now :: p[id]
  }

  lemma {:induction false} RestoreKeepsLive(cs: seq<Revocation>, p: Pending, now: int)
    requires forall c :: c in cs ==> ValidRevocation(c)
    requires DistinctKeys(KeyOf, cs) && SameCommands(cs, p)
    ensures Restore(cs, now).Ok? && Restore(cs, now).value.0 == Live(p, now)
    ensures Restore(cs, now).value.1 <==> exists c :: c in cs && c.denyUntil <= now
  {
    hide ValidRevocation;
    if cs == [] {
      assert p == map[];
    } else {
      hide SameCommands, DistinctKeys, Live;
      var c, init := cs[|cs| - 1], cs[..|cs| - 1];
      var q := p - {c.messageId};
      WithoutLast(cs, p);
      RestoreKeepsLive(init, q, now);
      LiveOfExtension(q, c, now);
      assert forall d :: d in cs <==> d in init || d == c;
    }
  }

  lemma LiveOfExtension(q: Pending, c: Revocation, now: int)
    requires c.messageId !in q
    ensures Live(q[c.messageId := c], now) == if c.denyUntil > now then Live(q, now)[c.messageId := c] else Live(q, now)
    ensures c.messageId !in Live(q, now)
  {}

  lemma WithoutLast(cs: seq<Revocation>, p: Pending)
    requires cs != [] && DistinctKeys(KeyOf, cs) && SameCommands(cs, p)
    ensures var init, q := cs[..|cs| - 1], p - {cs[|cs| - 1].messageId};
      && cs == init + [cs[|cs| - 1]] && p == q[cs[|cs| - 1].messageId := cs[|cs| - 1]]
      && cs[|cs| - 1].messageId !in q
      && DistinctKeys(KeyOf, init) && SameCommands(init, q)
  {
    var c, init := cs[|cs| - 1], cs[..|cs| - 1];
    assert cs == init + [c];
    forall d | d in init ensures d in cs && d.messageId != c.messageId {
      var i :| 0 <= i < |init| && init[i] == d;
      assert KeyOf(cs[i]) != KeyOf(cs[|cs| - 1]);
    }
  }

  /** Reopening a file that holds `p` never fails and restores exactly the commands whose deadline is ahead. */
  lemma ReopenRestoresLive(file: StoreFile, p: Pending, now: int)
    requires Holds(file, p)
    ensures Reopen(file, now) == Ok((Live(p, now), Live(p, now) != p))
  {
    var cs := if file.Missing? then [] else file.commands.value;
    RestoreKeepsLive(cs, p, now);
    SubmapSize(Live(p, now), p);
    if Live(p, now) != p {
      var id :| id in p && p[id].denyUntil <= now;
      assert p[id] in cs;
    }
  }

  lemma SubmapSize(a: Pending, b: Pending)
    requires a.Keys <= b.Keys
    ensures |a| <= |b|
  {
    SubsetSize(a.Keys, b.Keys);
    assert |a| == |a.Keys| && |b| == |b.Keys|;
  }

  ghost predicate AllLive(p: Pending, now: int) {
    forall id :: id in p ==> p[id].messageId == id && ValidRevocation(p[id]) && p[id].denyUntil > now
  }

  lemma {:induction false} RestoredAreLive(cs: seq<Revocation>, now: int)
    requires Restore(cs, now).Ok?
    ensures AllLive(Restore(cs, now).value.0, now)
  {
    hide ValidRevocation;
    if cs != [] { RestoredAreLive(cs[..|cs| - 1], now); }
  }

  lemma {:induction false} UnexpiredIsWhole(cs: seq<Revocation>, now: int)
    requires Restore(cs, now).Ok? && !Restore(cs, now).value.1
    ensures DistinctKeys(KeyOf, cs) && SameCommands(cs, Restore(cs, now).value.0)
  {
    hide ValidRevocation;
    if cs != [] {
      var c, init := cs[|cs| - 1], cs[..|cs| - 1];
      UnexpiredIsWhole(init, now);
      RestoredAreLive(init, now);
      var q := Restore(init, now).value.0;
      assert cs == init + [c] && Restore(cs, now).value.0 == q[c.messageId := c];
      hide Restore, AllLive;
      OneMoreCommand(init, q, c);
    }
  }

  lemma OneMoreCommand(init: seq<Revocation>, q: Pending, c: Revocation)
    requires DistinctKeys(KeyOf, init) && SameCommands(init, q) && c.messageId !in q
    ensures DistinctKeys(KeyOf, init + [c]) && SameCommands(init + [c], q[c.messageId := c])
  {
    var cs := init + [c];
    forall i, j | 0 <= i < j < |cs| ensures KeyOf(cs[i]) != KeyOf(cs[j]) {
      assert cs[i] == init[i] && init[i] in init;
      if j < |init| { assert cs[j] == init[j]; }
    }
  }

  /** A restore that drops nothing has read a list of distinct valid commands. */
  lemma RestoreIsFaithful(cs: seq<Revocation>, now: int)
    requires Restore(cs, now).Ok?
    ensures var (p, expired) := Restore(cs, now).value;
      && (forall id :: id in p ==> p[id].messageId == id && ValidRevocation(p[id]) && p[id].denyUntil > now)
      && (!expired ==> DistinctKeys(KeyOf, cs) && SameCommands(cs, p))
  {
    RestoredAreLive(cs, now);
    if !Restore(cs, now).value.1 { UnexpiredIsWhole(cs, now); }
    hide Restore, ValidRevocation, DistinctKeys, SameCommands;
  }

  /** The pending commands in whatever order the map gives them. */
  method Collect(pending: Pending) returns (commands: seq<Revocation>)
    requires ValidPending(pending)
    ensures |commands| == |pending| && DistinctKeys(KeyOf, commands) && SameCommands(commands, pending)
  {
    hide ValidRevocation;
    commands := [];
    var left := pending.Keys;
    while left != {}
      invariant left <= pending.Keys
      invariant |commands| + |left| == |pending|
      invariant DistinctKeys(KeyOf, commands)
      invariant forall c :: c in commands ==> c.messageId in pending && c.messageId !in left && pending[c.messageId] == c
      invariant forall id :: id in pending && id !in left ==> pending[id] in commands
    {
      var id :| id in left;
      commands := commands + [pending[id]];
      left := left - {id};
    }
  }

  /** The file is the encoding of its commands in message-ID order, well below the size load accepts. */
  ghost predicate Canonical(file: StoreFile) {
    && file.Stored? && file.commands.Some? && StrictlySorted(KeyOf, file.commands.value)
    && file.size == |EncodeFile(file.commands.value)| && file.size * 2 < MAX_STORE_BYTES
  }

  class CommandStore {
    var file: StoreFile
    /** The commands the file names. */
    ghost var content: Pending

    ghost predicate Valid()
      reads this
    {
      Holds(file, content)
    }

    constructor (file: StoreFile)
      ensures this.file == file
    {
      this.file := file;
    }

    /** Writes the commands in message-ID order and replaces the file. */
    method Persist(pending: Pending, io: Persist) returns (ok: bool)
      requires ValidPending(pending)
      modifies this
      ensures ok == io.Committed?
      ensures io.FailedKeepingOld? ==> file == old(file) && content == old(content)
      ensures !io.FailedKeepingOld? ==>
        Valid() && content == pending && Canonical(file)
    {
      hide ValidRevocation, ValidPending, EncodeFile, SortBy;
      var commands := Collect(pending);
      var sorted := SortBy(KeyOf, commands);
      SortingKeepsCommands(commands, sorted, pending);
      var data := EncodeFile(sorted);
      if !io.FailedKeepingOld? {
        file := Stored(|data|, STORE_VERSION, Some(sorted));
        content := pending;
      }
      ok := io.Committed?;
    }

    /** Opens the store at `now`: restores the live commands and rewrites the file when one had expired. */
    method Open(now: nat, io: Persist) returns (r: Result<Pending, OpenError>)
      modifies this
      ensures match Reopen(old(file), Unix(now))
        case Err(e) => r == Err(e) && file == old(file) && content == old(content)
        case Ok((p, expired)) =>
          && r == (if expired && !io.Committed? then Err(PersistFailed) else Ok(p))
          && (!expired || io.FailedKeepingOld? ==> file == old(file))
          && (expired && !io.FailedKeepingOld? ==> Valid() && content == p)
      ensures r.Ok? ==> Valid() && content == r.value
    {
      var loaded := LoadFile(file);
      if loaded.Err? { return Err(loaded.error); }
      var cs := loaded.value;
      var pending: Pending, expired := map[], false;
      for i := 0 to |cs|
        invariant Restore(cs[..i], Unix(now)) == Ok((pending, expired))
      {
        assert cs[..i + 1][..i] == cs[..i];
        var restored := Restore(cs[..i + 1], Unix(now));
        if !ValidRevocation(cs[i]) {
          RestoreStopsAtError(cs, i + 1, Unix(now));
          return Err(InvalidCommand);
        }
        if cs[i].messageId in pending {
          RestoreStopsAtError(cs, i + 1, Unix(now));
          return Err(DuplicateMessageId);
        }
        if cs[i].denyUntil <= Unix(now) {
          expired := true;
        } else {
          pending := pending[cs[i].messageId := cs[i]];
        }
      }
      assert cs[..|cs|] == cs;
      if |pending| > MAX_PENDING { return Err(TooManyCommands); }
      RestoreIsFaithful(cs, Unix(now));
      if expired {
        var ok := Persist(pending, io);
        if !ok { return Err(PersistFailed); }
      } else {
        content := pending;
      }
      r := Ok(pending);
    }
  }

  lemma {:induction false} RestoreStopsAtError(cs: seq<Revocation>, n: nat, now: int)
    requires n <= |cs| && Restore(cs[..n], now).Err?
    ensures Restore(cs, now) == Restore(cs[..n], now)
    decreases |cs|
  {
    if n < |cs| {
      assert cs[..|cs| - 1][..n] == cs[..n];
      RestoreStopsAtError(cs[..|cs| - 1], n, now);
    } else {
      assert cs[..n] == cs;
    }
  }

  lemma SortingKeepsCommands(commands: seq<Revocation>, sorted: seq<Revocation>, pending: Pending)
    requires ValidPending(pending) && DistinctKeys(KeyOf, commands) && SameCommands(commands, pending)
    requires |commands| == |pending| && sorted == SortBy(KeyOf, commands)
    ensures StrictlySorted(KeyOf, sorted) && DistinctKeys(KeyOf, sorted) && SameCommands(sorted, pending)
    ensures |EncodeFile(sorted)| * 2 < MAX_STORE_BYTES
  {
    hide ValidRevocation, SortBy, EncodeFile;
    SortBySorts(KeyOf, commands);
    SortByKeepsElements(KeyOf, commands);
    StrictlySortedIsDistinct(sorted);
    hide StrictlySorted, DistinctKeys;
    EncodedFileBound(sorted);
  }

  lemma StrictlySortedIsDistinct(cs: seq<Revocation>)
    requires StrictlySorted(KeyOf, cs)
    ensures DistinctKeys(KeyOf, cs)
  {
    forall i, j | 0 <= i < j < |cs| ensures KeyOf(cs[i]) != KeyOf(cs[j]) {
      KeyLessIsIrreflexive(KeyOf(cs[i]));
    }
  }
}
