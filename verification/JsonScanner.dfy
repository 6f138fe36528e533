/** The strict JSON scanner: one value, and no object with two members of the same name
    (section 2.3 of RFC 7493). */
module JsonScanner {
  import opened Wrappers

  /** What the decoder hands out: strings unescaped, other scalars alike, and delimiters. */
  datatype Token = Text(s: string) | Scalar | ObjectOpen | ObjectClose | ArrayOpen | ArrayClose

  datatype Member = Member(name: string, value: Json)

  datatype Json = Leaf(token: Token) | Object(members: seq<Member>) | Array(items: seq<Json>)

  predicate IsLeaf(t: Token) { t.Text? || t.Scalar? }

  /** Leaves hold scalars only. */
  ghost predicate WellFormed(v: Json) {
    match v
    case Leaf(t) => IsLeaf(t)
    case Object(members) => forall m :: m in members ==> WellFormed(m.value)
    case Array(items) => forall i :: i in items ==> WellFormed(i)
  }

  /** Every object, at every depth, has distinct member names. */
  ghost predicate Strict(v: Json) {
    match v
    case Leaf(_) => true
    case Object(members) =>
      && (forall i, j :: 0 <= i < j < |members| ==> members[i].name != members[j].name)
      && (forall m :: m in members ==> Strict(m.value))
    case Array(items) => forall i :: i in items ==> Strict(i)
  }

  function Tokens(v: Json): (ts: seq<Token>)
    ensures |ts| >= 1
    decreases v, 1
  {
    match v
    case Leaf(t) => [t]
    case Object(members) => [ObjectOpen] + MemberTokens(members) + [ObjectClose]
    case Array(items) => [ArrayOpen] + ItemTokens(items) + [ArrayClose]
  }

  function MemberTokens(members: seq<Member>): seq<Token>
    decreases members, 0
  {
    if members == [] then []
    else
      var m := members[0];
      [Text(m.name)] + Tokens(m.value) + MemberTokens(members[1..])
  }

  function ItemTokens(items: seq<Json>): seq<Token>
    decreases items, 0
  {
    if items == [] then [] else Tokens(items[0]) + ItemTokens(items[1..])
  }

  datatype ScanError = EndOfInput | KeyIsNotString | DuplicateMember | NotClosed | UnexpectedDelimiter

  /** Whether the decoder has another element before the closing delimiter. */
  predicate More(ts: seq<Token>) {
    ts != [] && !ts[0].ObjectClose? && !ts[0].ArrayClose?
  }

  /** What scanning one value leaves of the tokens. */
  function ScanValue(ts: seq<Token>): (r: Result<seq<Token>, ScanError>)
    ensures r.Ok? ==> |r.value| < |ts|
    decreases |ts|, 0
  {
    if ts == [] then Err(EndOfInput)
    else match ts[0]
      case Text(_) => Ok(ts[1..])
      case Scalar => Ok(ts[1..])
      case ObjectOpen => ScanMembers(ts[1..], {})
      case ArrayOpen => ScanItems(ts[1..])
      case _ => Err(UnexpectedDelimiter)
  }

  function ScanMembers(ts: seq<Token>, seen: set<string>): (r: Result<seq<Token>, ScanError>)
    ensures r.Ok? ==> |r.value| < |ts|
    decreases |ts|, 1
  {
    if More(ts) then
      if !ts[0].Text? then Err(KeyIsNotString)
      else if ts[0].s in seen then Err(DuplicateMember)
      else match ScanValue(ts[1..])
        case Err(e) => Err(e)
        case Ok(rest) => ScanMembers(rest, seen + {ts[0].s})
    else if ts == [] then Err(EndOfInput)
    else if !ts[0].ObjectClose? then Err(NotClosed)
    else Ok(ts[1..])
  }

  function ScanItems(ts: seq<Token>): (r: Result<seq<Token>, ScanError>)
    ensures r.Ok? ==> |r.value| < |ts|
    decreases |ts|, 1
  {
    if More(ts) then
      match ScanValue(ts)
      case Err(e) => Err(e)
      case Ok(rest) => ScanItems(rest)
    else if ts == [] then Err(EndOfInput)
    else if !ts[0].ArrayClose? then Err(NotClosed)
    else Ok(ts[1..])
  }

  /** The decoder's position in its token stream. */
  class Decoder {
    const tokens: seq<Token>
    var position: nat

    ghost predicate Valid()
      reads this
    {
      position <= |tokens|
    }

    ghost function Rest(): seq<Token>
      reads this
      requires Valid()
    {
      tokens[position..]
    }

    constructor (tokens: seq<Token>)
      ensures Valid() && Rest() == tokens
    {
      this.tokens, position := tokens, 0;
    }

    method Next() returns (t: Option<Token>)
      requires Valid()
      modifies this
      ensures Valid()
      ensures if old(Rest()) == [] then t == None && Rest() == [] else t == Some(old(Rest())[0]) && Rest() == old(Rest())[1..]
    {
      if position == |tokens| { return None; }
      t := Some(tokens[position]);
      position := position + 1;
    }

    method HasMore() returns (more: bool)
      requires Valid()
      ensures more == More(Rest())
    {
      more := position < |tokens| && !tokens[position].ObjectClose? && !tokens[position].ArrayClose?;
    }

    /** Scans one value and nothing after it. */
    method ScanOne() returns (e: Option<ScanError>)
      requires Valid()
      modifies this
      ensures Valid()
      ensures ScanValue(old(Rest())) == if e.None? then Ok(Rest()) else Err(e.value)
      decreases |Rest()|
    {
      ghost var start := Rest();
      var token := Next();
      if token.None? { return Some(EndOfInput); }
      match token.value {
        case Text(_) => return None;
        case Scalar => return None;
        case ObjectOpen =>
          var seen: set<string> := {};
          var more := HasMore();
          while more
            invariant Valid() && |Rest()| < |start| && more == More(Rest())
            invariant ScanMembers(Rest(), seen) == ScanMembers(start[1..], {})
            decreases |Rest()|
          {
            ghost var before := Rest();
            var key := Next();
            if !key.value.Text? { return Some(KeyIsNotString); }
            if key.value.s in seen { return Some(DuplicateMember); }
            e := ScanOne();
            if e.Some? { return; }
            seen := seen + {key.value.s};
            more := HasMore();
          }
          e := Close(ObjectClose);
        case ArrayOpen =>
          var more := HasMore();
          while more
            invariant Valid() && |Rest()| < |start| && more == More(Rest())
            invariant ScanItems(Rest()) == ScanItems(start[1..])
            decreases |Rest()|
          {
            e := ScanOne();
            if e.Some? { return; }
            more := HasMore();
          }
          e := Close(ArrayClose);
        case _ => return Some(UnexpectedDelimiter);
      }
    }

    method Close(delimiter: Token) returns (e: Option<ScanError>)
      requires Valid()
      modifies this
      ensures Valid()
      ensures old(Rest()) == [] ==> e == Some(EndOfInput)
      ensures old(Rest()) != [] ==> e == if old(Rest())[0] == delimiter then None else Some(NotClosed)
      ensures old(Rest()) != [] ==> Rest() == old(Rest())[1..]
    {
      var closing := Next();
      e := if closing.None? then Some(EndOfInput) else if closing.value != delimiter then Some(NotClosed) else None;
    }

    /** `validatePrivateControlJSON`: exactly one value, in valid UTF-8. */
    method Validate(utf8: bool) returns (ok: bool)
      requires Valid()
      modifies this
      ensures ok <==> utf8 && ScanValue(old(Rest())) == Ok([])
    {
      if !utf8 { return false; }
      var e := ScanOne();
      if e.Some? { return false; }
      var trailing := Next();
      ok := trailing.None?;
    }
  }

  // Completeness: on the tokens of a value, acceptance is strictness, and the rest is left untouched.

  lemma {:induction false} ScansValue(v: Json, rest: seq<Token>)
    requires WellFormed(v)
    ensures Strict(v) ==> ScanValue(Tokens(v) + rest) == Ok(rest)
    ensures !Strict(v) ==> ScanValue(Tokens(v) + rest) == Err(DuplicateMember)
    decreases v, 1
  {
    var ts := Tokens(v) + rest;
    match v {
      case Leaf(t) =>
        assert ts[0] == t && ts[1..] == rest;
      case Object(members) =>
        ScansMembers(members, {}, rest);
        assert ts[0] == ObjectOpen && ts[1..] == MemberTokens(members) + [ObjectClose] + rest;
      case Array(items) =>
        ScansItems(items, rest);
        assert ts[0] == ArrayOpen && ts[1..] == ItemTokens(items) + [ArrayClose] + rest;
    }
  }

  ghost predicate StrictMembers(members: seq<Member>, seen: set<string>) {
    && (forall i, j :: 0 <= i < j < |members| ==> members[i].name != members[j].name)
    && (forall m :: m in members ==> Strict(m.value))
    && (forall m :: m in members ==> m.name !in seen)
  }

  lemma StrictHead(members: seq<Member>, seen: set<string>)
    requires members != []
    ensures StrictMembers(members, seen) <==>
      members[0].name !in seen && Strict(members[0].value) && StrictMembers(members[1..], seen + {members[0].name})
  {
    var m, rest := members[0], members[1..];
    if m.name !in seen && Strict(m.value) && StrictMembers(rest, seen + {m.name}) {
      forall i, j | 0 <= i < j < |members| ensures members[i].name != members[j].name {
        assert members[j] == rest[j - 1] && rest[j - 1] in rest;
        if i > 0 { assert members[i] == rest[i - 1]; }
      }
    }
    if StrictMembers(members, seen) {
      forall k | k in rest ensures k in members && k.name != m.name {
        var i :| 0 <= i < |rest| && rest[i] == k;
        assert members[i + 1] == k;
      }
    }
  }

  lemma {:induction false} ScansMembers(members: seq<Member>, seen: set<string>, rest: seq<Token>)
    requires forall m :: m in members ==> WellFormed(m.value)
    ensures var ts := MemberTokens(members) + [ObjectClose] + rest;
      ScanMembers(ts, seen) == if StrictMembers(members, seen) then Ok(rest) else Err(DuplicateMember)
    decreases members, 0
  {
    var ts := MemberTokens(members) + [ObjectClose] + rest;
    if members == [] {
      assert ts[0] == ObjectClose && ts[1..] == rest;
    } else {
      var m := members[0];
      var tail := MemberTokens(members[1..]) + [ObjectClose] + rest;
      assert ts[0] == Text(m.name) && ts[1..] == Tokens(m.value) + tail;
      StrictHead(members, seen);
      ScansValue(m.value, tail);
      ScansMembers(members[1..], seen + {m.name}, rest);
      hide StrictMembers, Strict, WellFormed;
    }
  }

  lemma {:induction false} ScansItems(items: seq<Json>, rest: seq<Token>)
    requires forall i :: i in items ==> WellFormed(i)
    ensures var ts := ItemTokens(items) + [ArrayClose] + rest;
      ScanItems(ts) == if (forall i :: i in items ==> Strict(i)) then Ok(rest) else Err(DuplicateMember)
    decreases items, 0
  {
    var ts := ItemTokens(items) + [ArrayClose] + rest;
    if items == [] {
      assert ts[0] == ArrayClose && ts[1..] == rest;
    } else {
      var tail := ItemTokens(items[1..]) + [ArrayClose] + rest;
      assert ts == Tokens(items[0]) + tail;
      FirstToken(items[0]);
      ScansValue(items[0], tail);
      ScansItems(items[1..], rest);
      assert forall i :: i in items <==> i == items[0] || i in items[1..];
      hide Strict, WellFormed;
    }
  }

  lemma FirstToken(v: Json)
    requires WellFormed(v)
    ensures !Tokens(v)[0].ObjectClose? && !Tokens(v)[0].ArrayClose?
  {}

  // Soundness: whatever the tokens, an accepted prefix spells a strict value.

  lemma {:induction false} AcceptedIsStrictValue(ts: seq<Token>) returns (v: Json)
    requires ScanValue(ts).Ok?
    ensures WellFormed(v) && Strict(v) && ts == Tokens(v) + ScanValue(ts).value
    decreases |ts|, 0
  {
    match ts[0] {
      case ObjectOpen =>
        var members := AcceptedMembers(ts[1..], {});
        v := Object(members);
        assert ts == [ObjectOpen] + ts[1..];
        assert ts == Tokens(v) + ScanValue(ts).value;
      case ArrayOpen =>
        var items := AcceptedItems(ts[1..]);
        v := Array(items);
        assert ts == [ArrayOpen] + ts[1..];
        assert ts == Tokens(v) + ScanValue(ts).value;
      case _ =>
        v := Leaf(ts[0]);
        assert ts == [ts[0]] + ts[1..];
    }
  }

  lemma {:induction false} AcceptedMembers(ts: seq<Token>, seen: set<string>) returns (members: seq<Member>)
    requires ScanMembers(ts, seen).Ok?
    ensures forall m :: m in members ==> WellFormed(m.value)
    ensures StrictMembers(members, seen) && ts == MemberTokens(members) + [ObjectClose] + ScanMembers(ts, seen).value
    decreases |ts|, 1
  {
    if More(ts) {
      var value := AcceptedIsStrictValue(ts[1..]);
      var rest := ScanValue(ts[1..]).value;
      var tail := AcceptedMembers(rest, seen + {ts[0].s});
      members := [Member(ts[0].s, value)] + tail;
      assert members[1..] == tail;
      StrictHead(members, seen);
      var final := ScanMembers(ts, seen).value;
      assert MemberTokens(members) == [ts[0]] + Tokens(value) + MemberTokens(tail);
      assert ts[1..] == Tokens(value) + rest && rest == MemberTokens(tail) + [ObjectClose] + final;
      MembersJoin(ts, Tokens(value), MemberTokens(tail), final);
      assert forall m :: m in members <==> m == members[0] || m in tail;
      hide *;
    } else {
      members := [];
      assert ts == [ObjectClose] + ts[1..];
    }
  }

  lemma MembersJoin(ts: seq<Token>, value: seq<Token>, tail: seq<Token>, final: seq<Token>)
    requires ts != [] && ts[1..] == value + (tail + [ObjectClose] + final)
    ensures ts == [ts[0]] + value + tail + [ObjectClose] + final
  {
    assert ts == [ts[0]] + ts[1..];
  }

  lemma {:induction false} AcceptedItems(ts: seq<Token>) returns (items: seq<Json>)
    requires ScanItems(ts).Ok?
    ensures forall i :: i in items ==> WellFormed(i) && Strict(i)
    ensures ts == ItemTokens(items) + [ArrayClose] + ScanItems(ts).value
    decreases |ts|, 1
  {
    if More(ts) {
      var first := AcceptedIsStrictValue(ts);
      var tail := AcceptedItems(ScanValue(ts).value);
      items := [first] + tail;
      assert items[1..] == tail;
      hide WellFormed, Strict;
      assert ts == Tokens(first) + ScanValue(ts).value;
    } else {
      items := [];
      assert ts == [ArrayClose] + ts[1..];
    }
  }

  /** The scanner accepts a token list as one whole value iff it spells a strict value. */
  lemma AcceptsExactlyStrictValues(ts: seq<Token>)
    ensures ScanValue(ts) == Ok([]) <==> exists v :: WellFormed(v) && Strict(v) && Tokens(v) == ts
  {
    if ScanValue(ts) == Ok([]) {
      var v := AcceptedIsStrictValue(ts);
      assert Tokens(v) + [] == Tokens(v);
    }
    if v :| WellFormed(v) && Strict(v) && Tokens(v) == ts {
      ScansValue(v, []);
      assert Tokens(v) + [] == Tokens(v);
    }
  }
}
