/** The JSON text of a command determines the command: no two valid commands are stored or sent as the same text. */
module CommandText {
  import opened Text
  import opened Commands

  ghost predicate Unquoted(s: string) {
    forall i :: 0 <= i < |s| ==> s[i] != '"'
  }

  lemma Strip(a: string, x: string, y: string)
    requires a + x == a + y
    ensures x == y
  {
    assert (a + x)[|a|..] == x && (a + y)[|a|..] == y;
  }

  /** What comes before the first occurrence of a character is determined. */
  lemma SplitAt(s: string, t: string, c: char, x: string, y: string)
    requires s + ([c] + x) == t + ([c] + y)
    requires (forall i :: 0 <= i < |s| ==> s[i] != c) && (forall i :: 0 <= i < |t| ==> t[i] != c)
    ensures s == t && x == y
  {
    var u, v := s + ([c] + x), t + ([c] + y);
    assert forall i :: 0 <= i < |s| ==> u[i] == s[i];
    assert forall i :: 0 <= i < |t| ==> v[i] == t[i];
    assert u[|s|] == c && v[|t|] == c;
    assert s == u[..|s|] && t == v[..|t|];
    assert x == u[|s| + 1..] && y == v[|t| + 1..];
  }

  lemma QuotedSplits(name: string, s: string, t: string, x: string, y: string)
    requires Member(name, Quoted(s)) + x == Member(name, Quoted(t)) + y && Unquoted(s) && Unquoted(t)
    ensures s == t && x == y
  {
    var head := "\"" + name + "\":" + "\"";
    assert Member(name, Quoted(s)) + x == head + (s + ("\"" + x));
    assert Member(name, Quoted(t)) + y == head + (t + ("\"" + y));
    Strip(head, s + ("\"" + x), t + ("\"" + y));
    SplitAt(s, t, '"', x, y);
  }

  lemma NumberSplits(name: string, m: nat, n: nat, c: char, x: string, y: string)
    requires Member(name, Decimal(m)) + ([c] + x) == Member(name, Decimal(n)) + ([c] + y) && !('0' <= c <= '9')
    ensures m == n && x == y
  {
    var head := "\"" + name + "\":";
    assert Member(name, Decimal(m)) + ([c] + x) == head + (Decimal(m) + ([c] + x));
    assert Member(name, Decimal(n)) + ([c] + y) == head + (Decimal(n) + ([c] + y));
    Strip(head, Decimal(m) + ([c] + x), Decimal(n) + ([c] + y));
    SplitAt(Decimal(m), Decimal(n), c, x, y);
    DecimalIsInjective(m, n);
  }

  lemma OptionalText(name: string, s: string, x: string)
    requires name != "" && |x| >= 2
    ensures s == "" ==> OptionalMember(name, s) + x == x
    ensures s != "" ==> OptionalMember(name, s) + x == Member(name, Quoted(s)) + ("," + x)
    ensures s != "" ==> |OptionalMember(name, s) + x| >= 2 && (OptionalMember(name, s) + x)[1] == name[0]
  {}

  /** An optional member is told from what follows by the first letter of its name. */
  lemma OptionalSplits(name: string, s: string, t: string, x: string, y: string)
    requires OptionalMember(name, s) + x == OptionalMember(name, t) + y && Unquoted(s) && Unquoted(t)
    requires name != "" && |x| >= 2 && |y| >= 2 && x[1] != name[0] && y[1] != name[0]
    ensures s == t && x == y
  {
    OptionalText(name, s, x);
    OptionalText(name, t, y);
    hide OptionalMember, Member, Quoted, Unquoted;
    if s != "" {
      QuotedSplits(name, s, t, "," + x, "," + y);
      Strip(",", x, y);
    }
  }

  lemma RestIsUnique(m: Revocation, n: Revocation)
    requires Unquoted(m.reason) && Unquoted(n.reason) && m.denyUntil >= 1 && n.denyUntil >= 1
    requires EncodeRest(m) == EncodeRest(n)
    ensures m.reason == n.reason && m.denyUntil == n.denyUntil
  {
    var x, y := Member("deny_until", Integer(m.denyUntil)) + "}", Member("deny_until", Integer(n.denyUntil)) + "}";
    QuotedSplits("reason", m.reason, n.reason, "," + x, "," + y);
    Strip(",", x, y);
    assert "}" == ['}'] + "";
    NumberSplits("deny_until", m.denyUntil, n.denyUntil, '}', "", "");
  }

  lemma ScopeIsUnique(m: Revocation, n: Revocation)
    requires Unquoted(m.reason) && Unquoted(n.reason) && m.denyUntil >= 1 && n.denyUntil >= 1
    requires Unquoted(m.serviceId) && Unquoted(n.serviceId) && Unquoted(m.grantIdHash) && Unquoted(n.grantIdHash)
    requires EncodeScope(m) == EncodeScope(n)
    ensures m.serviceId == n.serviceId && m.grantIdHash == n.grantIdHash && m.reason == n.reason && m.denyUntil == n.denyUntil
  {
    var x, y := EncodeRest(m), EncodeRest(n);
    RestStarts(m); RestStarts(n);
    GrantStarts(m); GrantStarts(n);
    hide EncodeRest;
    OptionalSplits("service_id", m.serviceId, n.serviceId,
                   OptionalMember("grant_id_hash", m.grantIdHash) + x, OptionalMember("grant_id_hash", n.grantIdHash) + y);
    OptionalSplits("grant_id_hash", m.grantIdHash, n.grantIdHash, x, y);
    RestIsUnique(m, n);
  }

  lemma RestStarts(m: Revocation)
    ensures |EncodeRest(m)| >= 2 && EncodeRest(m)[1] == 'r'
  {}

  lemma GrantStarts(m: Revocation)
    ensures var s := OptionalMember("grant_id_hash", m.grantIdHash) + EncodeRest(m); |s| >= 2 && s[1] != 's'
  {
    RestStarts(m);
    hide EncodeRest;
  }

  lemma ValidIsUnquoted(m: Revocation)
    requires ValidRevocation(m)
    ensures Unquoted(m.messageId) && Unquoted(m.serviceId) && Unquoted(m.grantIdHash) && Unquoted(m.reason)
  {}

  /** Two valid commands with the same text are the same command. */
  lemma TextIsUnique(m: Revocation, n: Revocation)
    requires ValidRevocation(m) && ValidRevocation(n) && EncodeRevocation(m) == EncodeRevocation(n)
    ensures m == n
  {
    ValidIsUnquoted(m);
    ValidIsUnquoted(n);
    assert m.schemaVersion == n.schemaVersion && m.messageType == n.messageType;
    assert m.denyUntil >= 1 && n.denyUntil >= 1;
    hide ValidRevocation, Unquoted, EncodeScope, Member, Decimal;
    var a, b := Member("schema_version", Quoted(m.schemaVersion)), Member("type", Quoted(m.messageType));
    var x4, y4 := EncodeScope(m), EncodeScope(n);
    var x3, y3 := Member("channel_id", Decimal(m.channelId)) + ("," + x4), Member("channel_id", Decimal(n.channelId)) + ("," + y4);
    var x2, y2 := Member("message_id", Quoted(m.messageId)) + ("," + x3), Member("message_id", Quoted(n.messageId)) + ("," + y3);
    Strip("{", a + ("," + (b + ("," + x2))), a + ("," + (b + ("," + y2))));
    Strip(a, "," + (b + ("," + x2)), "," + (b + ("," + y2)));
    Strip(",", b + ("," + x2), b + ("," + y2));
    Strip(b, "," + x2, "," + y2);
    Strip(",", x2, y2);
    QuotedSplits("message_id", m.messageId, n.messageId, "," + x3, "," + y3);
    Strip(",", x3, y3);
    assert "," + x4 == [','] + x4 && "," + y4 == [','] + y4;
    NumberSplits("channel_id", m.channelId, n.channelId, ',', x4, y4);
    ScopeIsUnique(m, n);
  }
}
