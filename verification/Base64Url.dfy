/** Raw base64url (section 5 of RFC 4648, without padding), and why the ID checks accept exactly the canonical texts. */
module Base64Url {
  import opened Commands

  type Byte = x: int | 0 <= x < 0x100

  function Digit64(n: nat): (c: char)
    requires n < 64
  {
    if n < 26 then 'A' + n as char
    else if n < 52 then 'a' + (n - 26) as char
    else if n < 62 then '0' + (n - 52) as char
    else if n == 62 then '-' else '_'
  }

  function Value64(c: char): (n: nat)
    requires IsBase64Url(c)
    ensures n < 64 && Digit64(n) == c
  {
    if 'A' <= c <= 'Z' then (c - 'A') as nat
    else if 'a' <= c <= 'z' then (c - 'a') as nat + 26
    else if '0' <= c <= '9' then (c - '0') as nat + 52
    else if c == '-' then 62 else 63
  }

  lemma DigitIsBase64Url(n: nat)
    requires n < 64
    ensures IsBase64Url(Digit64(n)) && Value64(Digit64(n)) == n
  {}

  /** The four digits of three bytes. */
  function Quad(a: Byte, b: Byte, c: Byte): string {
    [Digit64(a / 4), Digit64(a % 4 * 16 + b / 16), Digit64(b % 16 * 4 + c / 64), Digit64(c % 64)]
  }

  /** Three bytes at a time, and what remains. */
  function Encode(b: seq<Byte>): string {
    if |b| == 0 then ""
    else if |b| == 1 then Quad(b[0], 0, 0)[..2]
    else if |b| == 2 then Quad(b[0], b[1], 0)[..3]
    else Quad(b[0], b[1], b[2]) + Encode(b[3..])
  }

  lemma Parts(a: Byte, b: Byte, c: Byte)
    ensures 0 <= a / 4 < 64 && 0 <= a % 4 * 16 + b / 16 < 64 && 0 <= b % 16 * 4 + c / 64 < 64
    ensures b == 0 ==> (a % 4 * 16 + b / 16) % 16 == 0
    ensures c == 0 ==> (b % 16 * 4 + c / 64) % 4 == 0
  {}

  lemma QuadDigits(a: Byte, b: Byte, c: Byte)
    ensures AllBase64Url(Quad(a, b, c)) && |Quad(a, b, c)| == 4
    ensures b == 0 ==> Value64(Quad(a, b, c)[1]) % 16 == 0
    ensures c == 0 ==> Value64(Quad(a, b, c)[2]) % 4 == 0
  {
    Parts(a, b, c);
    DigitIsBase64Url(a / 4);
    DigitIsBase64Url(a % 4 * 16 + b / 16);
    DigitIsBase64Url(b % 16 * 4 + c / 64);
    DigitIsBase64Url(c % 64);
    hide Digit64, Value64, IsBase64Url;
  }

  lemma BytesOfDigits(w: nat, x: nat, y: nat, z: nat) returns (a: Byte, b: Byte, c: Byte)
    requires w < 64 && x < 64 && y < 64 && z < 64
    ensures a / 4 == w && a % 4 * 16 + b / 16 == x && b % 16 * 4 + c / 64 == y && c % 64 == z
    ensures x % 16 == 0 && y == 0 && z == 0 ==> b == 0 && c == 0
    ensures y % 4 == 0 && z == 0 ==> c == 0
  {
    a, b, c := w * 4 + x / 16, x % 16 * 16 + y / 4, y % 4 * 64 + z;
  }

  lemma QuadOf(s: string) returns (a: Byte, b: Byte, c: Byte)
    requires |s| == 4 && AllBase64Url(s)
    ensures Quad(a, b, c) == s
    ensures Value64(s[1]) % 16 == 0 && Value64(s[2]) == 0 && Value64(s[3]) == 0 ==> b == 0 && c == 0
    ensures Value64(s[2]) % 4 == 0 && Value64(s[3]) == 0 ==> c == 0
  {
    a, b, c := BytesOfDigits(Value64(s[0]), Value64(s[1]), Value64(s[2]), Value64(s[3]));
    hide Digit64, Value64, IsBase64Url;
  }

  ghost predicate AllBase64Url(s: string) {
    forall i :: 0 <= i < |s| ==> IsBase64Url(s[i])
  }

  /** The text of n bytes: its length, its characters, and a last character without stray bits. */
  ghost predicate Canonical(s: string, n: nat) {
    && AllBase64Url(s)
    && |s| == n / 3 * 4 + (if n % 3 == 0 then 0 else n % 3 + 1)
    && (n % 3 == 1 ==> Value64(s[|s| - 1]) % 16 == 0)
    && (n % 3 == 2 ==> Value64(s[|s| - 1]) % 4 == 0)
  }

  lemma {:induction false} EncodedIsCanonical(b: seq<Byte>)
    ensures Canonical(Encode(b), |b|)
  {
    hide Quad, Value64, IsBase64Url;
    if |b| == 1 {
      QuadDigits(b[0], 0, 0);
    } else if |b| == 2 {
      QuadDigits(b[0], b[1], 0);
    } else if |b| > 2 {
      QuadDigits(b[0], b[1], b[2]);
      EncodedIsCanonical(b[3..]);
    }
  }

  lemma {:induction false} CanonicalIsEncoded(s: string, n: nat) returns (b: seq<Byte>)
    requires Canonical(s, n)
    ensures |b| == n && Encode(b) == s
    decreases n
  {
    if n < 3 {
      b := TailIsEncoded(s, n);
    } else {
      hide Quad, Value64, IsBase64Url;
      assert s == s[..4] + s[4..];
      var x, y, z := QuadOf(s[..4]);
      var rest := CanonicalIsEncoded(s[4..], n - 3);
      b := [x, y, z] + rest;
      assert b[3..] == rest;
    }
  }

  lemma TailIsEncoded(s: string, n: nat) returns (b: seq<Byte>)
    requires n < 3 && Canonical(s, n)
    ensures |b| == n && Encode(b) == s
  {
    if n == 0 {
      b := [];
    } else {
      var pad := if n == 1 then "AA" else "A";
      assert Value64('A') == 0 && IsBase64Url('A');
      hide Quad, Value64, IsBase64Url;
      var x, y, z := QuadOf(s + pad);
      b := if n == 1 then [x] else [x, y];
      assert (s + pad)[..n + 1] == s;
    }
  }

  /** A message ID is valid iff it is the text of 16 bytes. */
  lemma MessageIdIff(s: string)
    ensures ValidMessageId(s) <==> exists b: seq<Byte> :: |b| == 16 && Encode(b) == s
  {
    if ValidMessageId(s) {
      assert Value64(s[21]) % 16 == 0;
      var b := CanonicalIsEncoded(s, 16);
    }
    if b: seq<Byte> :| |b| == 16 && Encode(b) == s {
      EncodedIsCanonical(b);
      LastOf16(s[21]);
    }
  }

  /** A grant ID hash is valid iff it is the text of 32 bytes. */
  lemma GrantIdHashIff(s: string)
    ensures ValidGrantIdHash(s) <==> exists b: seq<Byte> :: |b| == 32 && Encode(b) == s
  {
    if ValidGrantIdHash(s) {
      assert Value64(s[42]) % 4 == 0;
      var b := CanonicalIsEncoded(s, 32);
    }
    if b: seq<Byte> :| |b| == 32 && Encode(b) == s {
      EncodedIsCanonical(b);
      LastOf32(s[42]);
    }
  }

  lemma LastOf16(c: char)
    requires IsBase64Url(c) && Value64(c) % 16 == 0
    ensures IsLastOf16(c)
  {
    assert Digit64(Value64(c)) == c;
  }

  lemma LastOf32(c: char)
    requires IsBase64Url(c) && Value64(c) % 4 == 0
    ensures IsLastOf32(c)
  {
    assert Digit64(Value64(c)) == c;
  }
}
