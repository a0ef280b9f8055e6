/** String operations of the standard library that names, image references and retries share. */
module Strings {

  predicate All(s: string, p: char -> bool) {
    forall k | 0 <= k < |s| :: p(s[k])
  }

  function StripLeft(s: string, p: char -> bool): string {
    if s != "" && p(s[0]) then StripLeft(s[1..], p) else s
  }

  function StripRight(s: string, p: char -> bool): string {
    if s != "" && p(s[|s| - 1]) then StripRight(s[..|s| - 1], p) else s
  }

  function Strip(s: string, p: char -> bool): string {
    StripRight(StripLeft(s, p), p)
  }

  // s[:n]
  function Cut(s: string, n: nat): string {
    if |s| <= n then s else s[..n]
  }

  predicate Bare(s: string, p: char -> bool) {
    s != "" ==> !p(s[0]) && !p(s[|s| - 1])
  }

  // The first and the last position of c; without one, the length and -1.
  function First(s: string, c: char): (i: nat)
    ensures i <= |s|
    ensures i < |s| ==> s[i] == c
  {
    if s == "" || s[0] == c then 0 else 1 + First(s[1..], c)
  }

  function Last(s: string, c: char): (i: int)
    ensures -1 <= i < |s|
    ensures i >= 0 ==> s[i] == c
  {
    if s == "" then -1 else if s[|s| - 1] == c then |s| - 1 else Last(s[..|s| - 1], c)
  }

  lemma {:induction false} FirstAfter(a: string, c: char, rest: string)
    requires c !in a
    ensures First(a + [c] + rest, c) == |a|
  {
    if a != "" {
      assert (a + [c] + rest)[1..] == a[1..] + [c] + rest;
      FirstAfter(a[1..], c, rest);
    }
  }

  lemma {:induction false} LastBefore(a: string, c: char, rest: string)
    requires c !in rest
    ensures Last(a + [c] + rest, c) == |a|
  {
    if rest != "" {
      var n := |rest| - 1;
      var s := a + [c] + rest;
      assert s[..|s| - 1] == a + [c] + rest[..n];
      LastBefore(a, c, rest[..n]);
    }
  }

  lemma {:induction false} FirstAbsent(s: string, c: char)
    ensures c !in s[..First(s, c)]
    ensures First(s, c) == |s| <==> c !in s
  {
    if s != "" && s[0] != c {
      FirstAbsent(s[1..], c);
      assert s[..First(s, c)] == [s[0]] + s[1..][..First(s[1..], c)];
      assert s == [s[0]] + s[1..];
    }
  }

  lemma {:induction false} LastAbsent(s: string, c: char)
    ensures c !in s[Last(s, c) + 1..]
    ensures Last(s, c) == -1 <==> c !in s
  {
    if s != "" && s[|s| - 1] != c {
      var front, n := s[..|s| - 1], Last(s, c) + 1;
      LastAbsent(front, c);
      forall k | n <= k < |s| ensures s[k] != c {
        if k < |front| { assert front[n..][k - n] == s[k]; }
      }
      assert n == 0 ==> s[n..] == s;
    }
  }

  // What str.strip() removes when it is given no argument.
  predicate IsSpace(c: char) {
    var n := c as int;
    || 9 <= n <= 13 || 28 <= n <= 32 || n == 0x85 || n == 0xA0 || n == 0x1680
    || 0x2000 <= n <= 0x200A || n == 0x2028 || n == 0x2029 || n == 0x202F || n == 0x205F || n == 0x3000
  }

  lemma {:induction false} StripLeftTakes(s: string, p: char -> bool) returns (n: nat)
    ensures n <= |s| && StripLeft(s, p) == s[n..] && All(s[..n], p)
    ensures n == |s| || !p(s[n])
  {
    if s != "" && p(s[0]) {
      var m := StripLeftTakes(s[1..], p);
      n := m + 1;
      assert s[1..][m..] == s[n..];
      assert s[..n] == [s[0]] + s[1..][..m];
    } else {
      n := 0;
    }
  }

  lemma {:induction false} StripRightTakes(s: string, p: char -> bool) returns (n: nat)
    ensures n <= |s| && StripRight(s, p) == s[..n] && All(s[n..], p)
    ensures n == 0 || !p(s[n - 1])
  {
    if s != "" && p(s[|s| - 1]) {
      n := StripRightTakes(s[..|s| - 1], p);
      assert s[..|s| - 1][..n] == s[..n];
      assert s[n..] == s[..|s| - 1][n..] + [s[|s| - 1]];
    } else {
      n := |s|;
    }
  }

  lemma {:induction false} StripRightKeepsHead(s: string, p: char -> bool)
    requires s != "" && !p(s[0])
    ensures StripRight(s, p) != "" && StripRight(s, p)[0] == s[0]
  {
    if p(s[|s| - 1]) { StripRightKeepsHead(s[..|s| - 1], p); }
  }

  // Stripping leaves a middle part with clean ends and drops only matching characters.
  lemma StripTakes(s: string, p: char -> bool) returns (before: string, after: string)
    ensures s == before + Strip(s, p) + after
    ensures All(before, p) && All(after, p) && Bare(Strip(s, p), p)
  {
    var m := StripLeftTakes(s, p);
    var n := StripRightTakes(s[m..], p);
    before, after := s[..m], s[m..][n..];
    if n > 0 {
      assert Strip(s, p)[0] == s[m];
    }
  }

  // The part that stripping leaves, by its positions.
  lemma StripAt(s: string, p: char -> bool) returns (first: nat, last: nat)
    ensures first <= last <= |s| && Strip(s, p) == s[first..last]
    ensures forall k | 0 <= k < |s| && !(first <= k < last) :: p(s[k])
    ensures first < last ==> !p(s[first]) && !p(s[last - 1])
  {
    var m := StripLeftTakes(s, p);
    var n := StripRightTakes(s[m..], p);
    first, last := m, m + n;
    assert s[m..][..n] == s[first..last];
    forall k | 0 <= k < |s| && !(first <= k < last) ensures p(s[k]) {
      if k < m { assert s[k] == s[..m][k]; } else { assert s[k] == s[m..][n..][k - last]; }
    }
  }

  lemma {:induction false} StripBare(s: string, p: char -> bool)
    requires Bare(s, p)
    ensures StripLeft(s, p) == s && StripRight(s, p) == s && Strip(s, p) == s
  {
  }

  lemma StripTwice(s: string, p: char -> bool)
    ensures Strip(Strip(s, p), p) == Strip(s, p)
  {
    var before, after := StripTakes(s, p);
    StripBare(Strip(s, p), p);
  }

  /******* Names *******/

  predicate Letter(c: char) {
    'a' <= c <= 'z'
  }

  predicate Digit(c: char) {
    '0' <= c <= '9'
  }

  predicate Alnum(c: char) {
    Letter(c) || Digit(c)
  }

  // Lower-case labels as section 2.3.1 of RFC 1035 defines them.
  predicate Label(s: string) {
    && 1 <= |s| <= 63
    && Letter(s[0]) && Alnum(s[|s| - 1])
    && forall k | 0 <= k < |s| :: Alnum(s[k]) || s[k] == '-'
  }

  function Decimal(n: nat): (s: string)
    ensures s != ""
    ensures All(s, Digit)
  {
    if n < 10 then [DigitChar(n)] else Decimal(n / 10) + [DigitChar(n % 10)]
  }

  function DigitChar(n: nat): (c: char)
    requires n < 10
    ensures Digit(c) && c as int == '0' as int + n
  {
    ('0' as int + n) as char
  }

  function DecimalValue(s: string): nat
    requires All(s, Digit)
  {
    if s == "" then 0
    else 10 * DecimalValue(s[..|s| - 1]) + (s[|s| - 1] as int - '0' as int)
  }

  lemma {:induction false} DecimalRoundTrip(n: nat)
    ensures DecimalValue(Decimal(n)) == n
  {
    if n < 10 {
      assert Decimal(n)[..0] == "";
    } else {
      DecimalRoundTrip(n / 10);
      var s := Decimal(n / 10) + [DigitChar(n % 10)];
      assert s[..|s| - 1] == Decimal(n / 10);
    }
  }

  lemma DecimalInjective(m: nat, n: nat)
    requires Decimal(m) == Decimal(n)
    ensures m == n
  {
    DecimalRoundTrip(m);
    DecimalRoundTrip(n);
  }

  function Pow10(k: nat): nat {
    if k == 0 then 1 else 10 * Pow10(k - 1)
  }

  // A number has at most k digits exactly when it is below 10^k.
  lemma {:induction false} DecimalLength(n: nat, k: nat)
    requires k > 0
    ensures |Decimal(n)| <= k <==> n < Pow10(k)
  {
    if n >= 10 {
      if k > 1 { DecimalLength(n / 10, k - 1); }
    } else if k > 1 {
      DecimalLength(n, k - 1);
    }
  }
}
