/** The handful of Python string operations the converter relies on, over `seq<char>`. */
module Text {

  /** `s.startswith(p)` */
  predicate StartsWith(s: string, p: string) {
    |p| <= |s| && s[..|p|] == p
  }

  /** `s.endswith(p)` */
  predicate EndsWith(s: string, p: string) {
    |p| <= |s| && s[|s| - |p|..] == p
  }

  /** `p in s` for strings: p occurs somewhere in s. */
  predicate Infix(p: string, s: string)
    decreases |s|
  {
    StartsWith(s, p) || (s != [] && Infix(p, s[1..]))
  }

  /** No ':' is immediately followed by '-' in s. */
  predicate NoDefaultMarker(s: string) {
    forall q :: 0 <= q < |s| - 1 ==> !(s[q] == ':' && s[q + 1] == '-')
  }

  /** Whatever occurs in a suffix of s occurs in s. */
  lemma {:induction false} InfixOfSuffix(s: string, k: nat)
    requires k <= |s|
    ensures forall p :: Infix(p, s[k..]) ==> Infix(p, s)
  {
    if k > 0 {
      assert s[1..][k - 1..] == s[k..];
      InfixOfSuffix(s[1..], k - 1);
    }
  }

  /** The number of occurrences of c in s. */
  function Count(s: string, c: char): nat
    decreases |s|
  {
    if s == [] then 0 else (if s[0] == c then 1 else 0) + Count(s[1..], c)
  }

  /** `sep.join(parts)` */
  function Join(sep: string, parts: seq<string>): string
    decreases |parts|
  {
    if parts == [] then []
    else if |parts| == 1 then parts[0]
    else parts[0] + sep + Join(sep, parts[1..])
  }

  /** `s.split(sep)` for a one-character separator: as many parts as there are
      separators plus one, none containing the separator, and joining them with
      the separator gives back s. */
  function Split(s: string, sep: char): (parts: seq<string>)
    ensures |parts| == Count(s, sep) + 1
    ensures forall i :: 0 <= i < |parts| ==> sep !in parts[i]
    ensures Join([sep], parts) == s
    decreases |s|
  {
    if s == [] then [[]]
    else
      var rest := Split(s[1..], sep);
      if s[0] == sep then
        assert Join([sep], [[]] + rest) == [sep] + Join([sep], rest);
        [[]] + rest
      else
        var parts := [[s[0]] + rest[0]] + rest[1..];
        assert Join([sep], parts) == [s[0]] + Join([sep], rest) by {
          if |rest| > 1 {
            assert parts[1..] == rest[1..];
          }
        }
        parts
  }

  /** Splitting at the first separator: the part before it comes first. */
  lemma {:induction false} SplitAtFirst(a: string, sep: char, b: string)
    requires sep !in a
    ensures Split(a + [sep] + b, sep) == [a] + Split(b, sep)
    decreases |a|
  {
    if a == [] {
      assert ([sep] + b)[1..] == b;
    } else {
      var s := a + [sep] + b;
      assert s[0] == a[0] && s[0] != sep;
      assert s[1..] == a[1..] + [sep] + b;
      SplitAtFirst(a[1..], sep, b);
      var rest := Split(s[1..], sep);
      assert rest[0] == a[1..] && rest[1..] == Split(b, sep);
      assert [a[0]] + a[1..] == a;
    }
  }

  /** A string without the separator is a single part. */
  lemma {:induction false} SplitWithout(s: string, sep: char)
    requires sep !in s
    ensures Split(s, sep) == [s]
    decreases |s|
  {
    if s != [] {
      SplitWithout(s[1..], sep);
      assert [s[0]] + s[1..] == s;
    }
  }

  /** `c.lower()` for the ASCII letters. */
  function LowerChar(c: char): char {
    if 'A' <= c <= 'Z' then (c as int + 32) as char else c
  }

  /** `s.lower()`, character by character. */
  function Lower(s: string): string {
    seq(|s|, i requires 0 <= i < |s| => LowerChar(s[i]))
  }

  /** The decimal digits of n, most significant first. */
  function NatDecimal(n: nat): (r: string)
    ensures r != []
    decreases n
  {
    if n < 10 then ["0123456789"[n]] else NatDecimal(n / 10) + ["0123456789"[n % 10]]
  }

  /** `str(i)` for a Python int. */
  function Decimal(i: int): string {
    if i < 0 then "-" + NatDecimal(-i) else NatDecimal(i)
  }
}
