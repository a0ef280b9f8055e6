/**
  Deployment ids as words over a-z, used for ingress hosts: bijective base 26.
  worker/executors/kubernetes/executor.py.
 */
module AlphabeticId {
  import opened Basics
  import opened Strings

  predicate Letters(s: string) {
    All(s, Letter)
  }

  function LetterFor(n: nat): (c: char)
    requires n < 26
    ensures Letter(c) && c as int == 'a' as int + n
  {
    ('a' as int + n) as char
  }

  // The word of n; zero has the empty word.
  function Encode(n: nat): (s: string)
    ensures Letters(s)
    ensures s == "" <==> n == 0
  {
    if n == 0 then "" else Encode((n - 1) / 26) + [LetterFor((n - 1) % 26)]
  }

  // The value of a word: letters count from 1 to 26.
  function Decode(s: string): (n: nat)
    requires Letters(s)
  {
    if s == "" then 0 else 26 * Decode(s[..|s| - 1]) + (s[|s| - 1] as int - 'a' as int + 1)
  }

  function Reversed(s: string): string {
    if s == "" then "" else Reversed(s[1..]) + [s[0]]
  }

  lemma {:induction false} ReversedAppend(s: string, c: char)
    ensures Reversed(s + [c]) == [c] + Reversed(s)
  {
    if s == "" {
      assert s + [c] == [c];
    } else {
      ReversedAppend(s[1..], c);
      assert (s + [c])[1..] == s[1..] + [c];
    }
  }

  datatype IdError = NotPositive

  // Digits come out last first and are reversed at the end.
  method Alphabetic(value: int) returns (r: Result<string, IdError>)
    ensures value < 1 ==> r == Err(NotPositive)
    ensures value >= 1 ==> r.Ok? && r.value != "" && Letters(r.value) && Decode(r.value) == value
    ensures value >= 1 ==> r == Ok(Encode(value))
  {
    var number := value;
    if number < 1 {
      return Err(NotPositive);
    }
    var encoded := "";
    while number != 0
      invariant number >= 0
      invariant Encode(number) + Reversed(encoded) == Encode(value)
    {
      var remainder := (number - 1) % 26;
      ReversedAppend(encoded, LetterFor(remainder));
      number := (number - 1) / 26;
      assert Encode(number) + ([LetterFor(remainder)] + Reversed(encoded))
          == Encode(number) + [LetterFor(remainder)] + Reversed(encoded);
      encoded := encoded + [LetterFor(remainder)];
    }
    assert Reversed(encoded) == Encode(number) + Reversed(encoded) == Encode(value);
    DecodeEncode(value);
    return Ok(Reversed(encoded));
  }

  lemma {:induction false} DecodeEncode(n: nat)
    ensures Decode(Encode(n)) == n
  {
    if n > 0 {
      DecodeEncode((n - 1) / 26);
      var s := Encode((n - 1) / 26) + [LetterFor((n - 1) % 26)];
      assert s[..|s| - 1] == Encode((n - 1) / 26);
    }
  }

  // Every word over a-z is the word of exactly one number.
  lemma {:induction false} EncodeDecode(s: string)
    requires Letters(s)
    ensures Encode(Decode(s)) == s
    ensures forall n: nat | Encode(n) == s :: n == Decode(s)
  {
    if s != "" {
      var front, digit := s[..|s| - 1], s[|s| - 1] as int - 'a' as int;
      EncodeDecode(front);
      var n := Decode(s);
      assert (n - 1) / 26 == Decode(front) && (n - 1) % 26 == digit;
      assert LetterFor(digit) == s[|s| - 1];
      assert s == front + [s[|s| - 1]];
    }
    forall n: nat | Encode(n) == s ensures n == Decode(s) {
      DecodeEncode(n);
    }
  }

  /******* Order *******/

  predicate FirstDifference(s: string, t: string, k: nat) {
    k < |s| && k < |t| && s[..k] == t[..k] && s[k] < t[k]
  }

  // Shorter first, then alphabetical.
  predicate Shortlex(s: string, t: string) {
    |s| < |t| || (|s| == |t| && exists k | 0 <= k < |s| :: FirstDifference(s, t, k))
  }

  lemma ShortlexExtends(s: string, t: string, c: char, d: char)
    requires Shortlex(s, t)
    ensures Shortlex(s + [c], t + [d])
  {
    if |s| == |t| {
      var k :| 0 <= k < |s| && FirstDifference(s, t, k);
      assert (s + [c])[..k] == s[..k] && (t + [d])[..k] == t[..k];
      assert FirstDifference(s + [c], t + [d], k);
    }
  }

  lemma {:induction false} EncodeClimbs(m: nat, n: nat)
    requires m < n
    ensures Shortlex(Encode(m), Encode(n))
    decreases n
  {
    if m > 0 {
      var x, y := (m - 1) / 26, (n - 1) / 26;
      var c, d := LetterFor((m - 1) % 26), LetterFor((n - 1) % 26);
      if x < y {
        EncodeClimbs(x, y);
        ShortlexExtends(Encode(x), Encode(y), c, d);
      } else {
        assert FirstDifference(Encode(m), Encode(n), |Encode(x)|);
      }
    }
  }

  lemma ShortlexOneWay(s: string, t: string)
    ensures !(Shortlex(s, t) && Shortlex(t, s))
  {
    if |s| == |t| && Shortlex(s, t) {
      var k :| 0 <= k < |s| && FirstDifference(s, t, k);
      forall j | 0 <= j < |t| ensures !FirstDifference(t, s, j) {
        if j < k {
          assert s[..k][j] == t[..k][j];
        } else if j > k {
          assert s[..j][k] != t[..j][k];
        }
      }
    }
  }

  // Ids and their words are in the same order.
  lemma OrderIsShortlex(m: nat, n: nat)
    ensures m < n <==> Shortlex(Encode(m), Encode(n))
  {
    ShortlexOneWay(Encode(m), Encode(n));
    if m < n { EncodeClimbs(m, n); }
    if n < m { EncodeClimbs(n, m); }
  }

  /******* Length *******/

  function Pow26(k: nat): nat {
    if k == 0 then 1 else 26 * Pow26(k - 1)
  }

  lemma {:induction false} PowersLeaveOne(k: nat)
    ensures Pow26(k) % 25 == 1 && Pow26(k) >= 1
  {
    if k > 0 { PowersLeaveOne(k - 1); }
  }

  // The least number whose word has k letters.
  function Least(k: nat): nat {
    if k == 0 then 0 else 26 * Least(k - 1) + 1
  }

  lemma {:induction false} LeastClosedForm(k: nat)
    ensures 25 * Least(k) == Pow26(k) - 1
  {
    if k > 0 { LeastClosedForm(k - 1); }
  }

  lemma {:induction false} LengthAtLeast(n: nat, k: nat)
    ensures k <= |Encode(n)| <==> Least(k) <= n
  {
    if n > 0 && k > 0 { LengthAtLeast((n - 1) / 26, k - 1); }
  }

  // Words of k letters belong to exactly the ids from (26^k - 1)/25 to (26^(k+1) - 26)/25.
  lemma LengthExactly(n: nat, k: nat)
    ensures |Encode(n)| == k <==> (Pow26(k) - 1) / 25 <= n <= (Pow26(k + 1) - 26) / 25
  {
    LeastClosedForm(k);
    LeastClosedForm(k + 1);
    LengthAtLeast(n, k);
    LengthAtLeast(n, k + 1);
  }

  /******* Ingress hosts *******/

  const HostPrefix := "paas-deployment-"

  // What the prefix leaves of a label's 63 characters.
  const HostLetters: nat := 63 - |HostPrefix|

  function HostLabel(id: nat): string {
    HostPrefix + Encode(id)
  }

  function IngressHost(enabled: bool, id: nat, domain: string): Option<string> {
    if !enabled then None else Some(HostLabel(id) + "." + domain)
  }

  // Deployments never share an ingress host, whatever their domains.
  lemma HostsAreDistinct(id: nat, domain: string, other: nat, domain': string)
    requires IngressHost(true, id, domain) == IngressHost(true, other, domain')
    ensures id == other && domain == domain'
  {
    var a, b := HostLabel(id), HostLabel(other);
    FirstAfter(a, '.', domain);
    FirstAfter(b, '.', domain');
    var host := a + "." + domain;
    assert host == b + "." + domain';
    assert host[..|a|] == a && host[..|b|] == b;
    assert a[|HostPrefix|..] == Encode(id) && b[|HostPrefix|..] == Encode(other);
    DecodeEncode(id);
    DecodeEncode(other);
    assert host[|a| + 1..] == domain && host[|b| + 1..] == domain';
  }

  // The host starts with a valid DNS label exactly up to the last id whose word has 47 letters.
  lemma HostLabelsAreLabels(id: nat)
    requires id >= 1
    ensures Label(HostLabel(id)) <==> id <= (Pow26(HostLetters + 1) - 26) / 25
  {
    LeastClosedForm(HostLetters + 1);
    LengthAtLeast(id, HostLetters + 1);
    var s := HostLabel(id);
    forall k | 0 <= k < |s| ensures Alnum(s[k]) || s[k] == '-' {
      if k >= |HostPrefix| { assert s[k] == Encode(id)[k - |HostPrefix|]; }
    }
    assert s[|s| - 1] == Encode(id)[|Encode(id)| - 1];
  }
}
