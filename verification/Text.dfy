/** Text order and decimal text, as the program uses them for map keys and sorted output. */
module Text {

  /** Lexicographic order on strings, Go's `<`. */
  predicate Less(a: string, b: string) {
    b != [] && (a == [] || a[0] < b[0] || (a[0] == b[0] && Less(a[1..], b[1..])))
  }

  lemma {:induction false} LessIsTotal(a: string, b: string)
    ensures a == b || Less(a, b) || Less(b, a)
  {
    if a != [] && b != [] && a[0] == b[0] {
      LessIsTotal(a[1..], b[1..]);
      assert a[1..] == b[1..] ==> a == [a[0]] + a[1..] == [b[0]] + b[1..] == b;
    }
  }

  lemma {:induction false} LessIsTransitive(a: string, b: string, c: string)
    requires Less(a, b) && Less(b, c)
    ensures Less(a, c)
  {
    if a != [] && a[0] == b[0] == c[0] {
      LessIsTransitive(a[1..], b[1..], c[1..]);
    }
  }

  lemma {:induction false} LessIsIrreflexive(a: string)
    ensures !Less(a, a)
  {
    if a != [] {
      LessIsIrreflexive(a[1..]);
    }
  }

  function Digit(d: nat): (c: char)
    requires d < 10
    ensures '0' <= c <= '9'
  {
    '0' + (d as char)
  }

  /** Shortest decimal text of a natural number (`%d`, `strconv.FormatUint`). */
  function Decimal(n: nat): (s: string)
    ensures |s| >= 1
    ensures forall i :: 0 <= i < |s| ==> '0' <= s[i] <= '9'
  {
    if n < 10 then [Digit(n)] else Decimal(n / 10) + [Digit(n % 10)]
  }

  lemma {:induction false} DecimalIsInjective(m: nat, n: nat)
    requires Decimal(m) == Decimal(n)
    ensures m == n
  {
    var s := Decimal(m);
    if m < 10 || n < 10 {
      assert |Decimal(m)| == 1 <==> m < 10;
      assert |Decimal(n)| == 1 <==> n < 10;
      assert Digit(m) == s[0] == Digit(n);
    } else {
      assert Decimal(m / 10) == s[..|s| - 1] == Decimal(n / 10);
      assert Digit(m % 10) == s[|s| - 1] == Digit(n % 10);
      DecimalIsInjective(m / 10, n / 10);
    }
  }

  /** A number below 10^k has at most k decimal digits. */
  lemma {:induction false} DecimalLength(n: nat, k: nat)
    requires k >= 1 && n < Power10(k)
    ensures |Decimal(n)| <= k
  {
    if n >= 10 {
      assert k > 1;
      DecimalLength(n / 10, k - 1);
    }
  }

  function Power10(k: nat): nat {
    if k == 0 then 1 else 10 * Power10(k - 1)
  }

  /** The text key `<name>/<number>`. */
  function SlashKey(name: string, n: nat): string {
    name + "/" + Decimal(n)
  }

  lemma SlashIsLast(name: string, n: nat)
    ensures var k := SlashKey(name, n);
      && |name| < |k| && k[|name|] == '/' && k[..|name|] == name && k[|name| + 1..] == Decimal(n)
      && forall i :: |name| < i < |k| ==> k[i] != '/'
  {
    var k, digits := SlashKey(name, n), Decimal(n);
    hide Decimal;
    assert forall i :: |name| < i < |k| ==> k[i] == digits[i - |name| - 1];
  }

  /** The text key names exactly one pair, whatever characters the name holds:
      decimal text has no slash, so the last slash splits the key. */
  lemma SlashKeyIsInjective(a: string, m: nat, b: string, n: nat)
    requires SlashKey(a, m) == SlashKey(b, n)
    ensures a == b && m == n
  {
    SlashIsLast(a, m);
    SlashIsLast(b, n);
    assert |a| == |b|;
    DecimalIsInjective(m, n);
  }
}
