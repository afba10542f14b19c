/** The converter's `${...}` placeholders. Three regular expressions read
    them: discovery uses `\$\{([^}]+)(?::-[^}]*)?\}`, and rewriting runs
    `\$\{([^}]+):-([^}]+)\}` and then `\$\{([^}]+)\}`. None of their groups
    can cross a `}`, so each match is found by a left-to-right scan that, at a
    `${`, looks at the text up to the first `}` (the body) and otherwise moves
    on by one character. The scanners below are those searches written out. */
module Placeholders {
  import opened Outcomes
  import opened Text

  /** The position of the first '}' in s, if there is one. */
  function FirstClose(s: string): (r: Option<nat>)
    ensures r.Some? ==> r.value < |s| && s[r.value] == '}' && '}' !in s[..r.value]
    ensures r.None? ==> '}' !in s
    decreases |s|
  {
    if s == [] then None
    else if s[0] == '}' then Some(0)
    else match FirstClose(s[1..])
      case None => assert s == [s[0]] + s[1..]; None
      case Some(j) => assert s[..j + 1] == [s[0]] + s[1..][..j]; Some(j + 1)
  }

  lemma {:induction false} FirstCloseAfter(a: string, rest: string)
    requires '}' !in a
    ensures FirstClose(a + "}" + rest) == Some(|a|)
    decreases |a|
  {
    if a != [] {
      assert (a + "}" + rest)[1..] == a[1..] + "}" + rest;
      FirstCloseAfter(a[1..], rest);
    }
  }

  /** When text starts with "${" and the first '}' after it closes a non-empty
      body, that body: what `[^}]+` followed by `}` spans there. */
  function BodyAt(text: string): (r: Option<string>)
    ensures r.Some? ==> r.value != [] && |r.value| + 3 <= |text|
  {
    if |text| >= 2 && text[0] == '$' && text[1] == '{' then
      match FirstClose(text[2..])
      case Some(j) => if j == 0 then None else Some(text[2..2 + j])
      case None => None
    else None
  }

  /** A body found is a whole placeholder at the start of the text. */
  lemma BodyAtShape(text: string)
    requires BodyAt(text).Some?
    ensures var b := BodyAt(text).value; '}' !in b && text[..|b| + 3] == "${" + b + "}"
  {
    var b := BodyAt(text).value;
    var j := FirstClose(text[2..]).value;
    assert b == text[2..][..j] == text[2..2 + j] && text[2 + j] == text[2..][j] == '}';
    assert text[..2] == "${";
    assert text[..|b| + 3] == text[..2] + b + [text[2 + j]];
  }

  /** The body of a placeholder written out is found again. */
  lemma BodyAtReference(body: string, rest: string)
    requires body != [] && '}' !in body
    ensures BodyAt("${" + body + "}" + rest) == Some(body)
  {
    var text := "${" + body + "}" + rest;
    assert text[0] == '$' && text[1] == '{';
    assert text[2..] == body + "}" + rest;
    FirstCloseAfter(body, rest);
    assert text[2..2 + |body|] == body;
  }

  /** The names `_find_env_vars` returns: at each match, the first group, which
      is greedy and so takes the whole body, default clause included. Every
      name is non-empty, has no '}', and occurs in the text as `${name}`. */
  function FindEnvVars(text: string): (r: set<string>)
    ensures forall n :: n in r ==> n != [] && '}' !in n && Infix("${" + n + "}", text)
    decreases |text|
  {
    if text == [] then {}
    else match BodyAt(text)
      case Some(b) =>
        BodyAtShape(text);
        InfixOfSuffix(text, |b| + 3);
        {b} + FindEnvVars(text[|b| + 3..])
      case None =>
        InfixOfSuffix(text, 1);
        FindEnvVars(text[1..])
  }

  /** A whole placeholder contributes its body, and the search goes on
      after its closing '}'. */
  lemma FindEnvVarsAfterReference(b: string, rest: string)
    requires b != [] && '}' !in b
    ensures FindEnvVars("${" + b + "}" + rest) == {b} + FindEnvVars(rest)
  {
    var text := "${" + b + "}" + rest;
    BodyAtReference(b, rest);
    assert text[|b| + 3..] == rest;
  }

  /** `1 <= p`, `p + 2 < |body|` and `body[p..p+2] == ":-"`: the body can be
      read as name `body[..p]` and default `body[p+2..]`, both non-empty. */
  predicate IsSplit(body: string, p: int) {
    1 <= p && p + 2 < |body| && body[p] == ':' && body[p + 1] == '-'
  }

  /** The largest split point not above hi. */
  function SplitBelow(body: string, hi: int): (r: Option<nat>)
    ensures r.Some? ==> r.value <= hi && IsSplit(body, r.value)
    ensures forall q :: q <= hi && IsSplit(body, q) ==> r.Some? && q <= r.value
    decreases hi
  {
    if hi < 1 then None
    else if IsSplit(body, hi) then Some(hi)
    else SplitBelow(body, hi - 1)
  }

  /** Where `([^}]+):-([^}]+)` divides a body: greedy matching of the first
      group tries the longest name first, so it is the last split point. */
  function SplitPoint(body: string): (r: Option<nat>)
    ensures r.Some? ==> IsSplit(body, r.value)
    ensures forall q :: IsSplit(body, q) ==> r.Some? && q <= r.value
  {
    SplitBelow(body, |body| - 3)
  }

  /** A match of `\$\{([^}]+):-([^}]+)\}`: name, default, and the length of the
      matched text. */
  datatype DefaultRef = DefaultRef(name: string, fallback: string, width: nat)

  /** The match of the first rewriting expression at the start of text, if any. */
  function DefaultRefAt(text: string): (r: Option<DefaultRef>)
    ensures r.Some? ==> 0 < r.value.width <= |text|
    ensures r.Some? ==> |r.value.name| + 3 <= r.value.width && |r.value.fallback| <= r.value.width
  {
    match BodyAt(text)
    case None => None
    case Some(b) =>
      match SplitPoint(b)
      case None => None
      case Some(p) => Some(DefaultRef(b[..p], b[p + 2..], |b| + 3))
  }

  /** What `replace_var` returns for one match: the canonical reference when
      the name is a variable of the table, else the default when there is a
      non-empty one, else the canonical reference. */
  function Substitute(known: set<string>, name: string, fallback: Option<string>): (r: string)
    ensures name in known ==> r == "${" + name + "}"
    ensures name !in known && fallback.Some? && fallback.value != [] ==> r == fallback.value
    ensures name !in known && (fallback.None? || fallback.value == []) ==> r == "${" + name + "}"
    ensures r == "${" + name + "}" || (name !in known && fallback.Some? && fallback.value != [] && r == fallback.value)
  {
    if name in known then "${" + name + "}"
    else if fallback.Some? && fallback.value != [] then fallback.value
    else "${" + name + "}"
  }

  /** The first `re.sub` pass, over `${NAME:-default}`. */
  function ReplaceDefaults(known: set<string>, text: string): string
    decreases |text|
  {
    if text == [] then []
    else match DefaultRefAt(text)
      case Some(m) => Substitute(known, m.name, Some(m.fallback)) + ReplaceDefaults(known, text[m.width..])
      case None => [text[0]] + ReplaceDefaults(known, text[1..])
  }

  /** A match of the first pass is replaced by its reference or its default,
      both shorter than the match, so the text never grows. */
  lemma {:induction false} DefaultsNeverLengthen(known: set<string>, text: string)
    ensures |ReplaceDefaults(known, text)| <= |text|
    decreases |text|
  {
    if text != [] {
      match DefaultRefAt(text)
      case Some(m) => DefaultsNeverLengthen(known, text[m.width..]);
      case None => DefaultsNeverLengthen(known, text[1..]);
    }
  }

  /** The second `re.sub` pass, over `${NAME}`; there is no default group. */
  function ReplaceBare(known: set<string>, text: string): string
    decreases |text|
  {
    if text == [] then []
    else match BodyAt(text)
      case Some(b) => Substitute(known, b, None) + ReplaceBare(known, text[|b| + 3..])
      case None => [text[0]] + ReplaceBare(known, text[1..])
  }

  lemma BareStepAtReference(known: set<string>, text: string, b: string, tail: string)
    requires text != [] && BodyAt(text) == Some(b) && ReplaceBare(known, text[|b| + 3..]) == tail
    ensures ReplaceBare(known, text) == "${" + b + "}" + tail
  {
  }

  lemma BareStepElsewhere(known: set<string>, text: string, tail: string)
    requires text != [] && BodyAt(text).None? && ReplaceBare(known, text[1..]) == tail
    ensures ReplaceBare(known, text) == [text[0]] + tail
  {
  }

  /** The second pass puts back exactly the text it matched, so it never
      changes anything. */
  lemma {:induction false} ReplaceBareIsIdentity(known: set<string>, text: string)
    ensures ReplaceBare(known, text) == text
    decreases |text|
  {
    if text != [] {
      match BodyAt(text)
      case Some(b) =>
        BodyAtShape(text);
        ReplaceBareIsIdentity(known, text[|b| + 3..]);
        BareStepAtReference(known, text, b, text[|b| + 3..]);
        assert text == text[..|b| + 3] + text[|b| + 3..];
      case None =>
        ReplaceBareIsIdentity(known, text[1..]);
        BareStepElsewhere(known, text, text[1..]);
        assert text == [text[0]] + text[1..];
    }
  }

  /** `_replace_env_vars`: both passes, the defaults first. Because the second
      pass changes nothing, the result is that of the first. */
  function ReplaceEnvVars(known: set<string>, text: string): (r: string)
    ensures r == ReplaceDefaults(known, text)
  {
    var once := ReplaceDefaults(known, text);
    ReplaceBareIsIdentity(known, once);
    ReplaceBare(known, once)
  }

  /** Text without any `${` is returned unchanged. */
  lemma {:induction false} RewriteWithoutOpening(known: set<string>, text: string)
    requires !Infix("${", text)
    ensures ReplaceEnvVars(known, text) == text
    decreases |text|
  {
    if text != [] {
      assert !StartsWith(text, "${");
      assert DefaultRefAt(text).None?;
      RewriteWithoutOpening(known, text[1..]);
      assert text == [text[0]] + text[1..];
    }
  }

  /** Text in which no ':' is followed by '-' has no default clause to resolve
      and is returned unchanged, whatever its placeholders. */
  lemma {:induction false} RewriteWithoutDefaults(known: set<string>, text: string)
    requires NoDefaultMarker(text)
    ensures ReplaceEnvVars(known, text) == text
    decreases |text|
  {
    if text != [] {
      match BodyAt(text) {
        case None =>
        case Some(b) =>
          assert text[2..2 + |b|] == b;
          assert forall q :: !IsSplit(b, q);
      }
      assert DefaultRefAt(text).None?;
      RewriteWithoutDefaults(known, text[1..]);
      assert text == [text[0]] + text[1..];
    }
  }

  /** A character other than '$' is copied and the rewriting goes on after it. */
  lemma RewriteOrdinaryChar(known: set<string>, c: char, rest: string)
    requires c != '$'
    ensures ReplaceEnvVars(known, [c] + rest) == [c] + ReplaceEnvVars(known, rest)
  {
    assert ([c] + rest)[1..] == rest;
  }

  /** No match of the first pass starts inside text that runs, without a
      default marker, up to a '}'. */
  lemma NoDefaultRefBeforeClose(s: string, rest: string)
    requires '}' !in s && NoDefaultMarker(s)
    ensures DefaultRefAt(s + "}" + rest).None?
  {
    var text := s + "}" + rest;
    match BodyAt(text) {
      case None =>
      case Some(b) =>
        assert |s| >= 2 && s[0] == '$' && s[1] == '{';
        assert text[2..] == s[2..] + "}" + rest;
        FirstCloseAfter(s[2..], rest);
        assert b == s[2..];
        assert forall q :: !IsSplit(b, q);
    }
  }

  /** Where no match of the first pass starts, its first character is copied. */
  lemma CopyFirst(known: set<string>, text: string, tail: string)
    requires text != [] && DefaultRefAt(text).None? && ReplaceDefaults(known, text[1..]) == tail
    ensures ReplaceDefaults(known, text) == [text[0]] + tail
  {
  }

  lemma CopyFirstBeforeClose(known: set<string>, s: string, rest: string, tail: string)
    requires s != [] && DefaultRefAt(s + "}" + rest).None?
    requires ReplaceDefaults(known, s[1..] + "}" + rest) == tail
    ensures ReplaceDefaults(known, s + "}" + rest) == [s[0]] + tail
  {
    var text := s + "}" + rest;
    assert ReplaceDefaults(known, text[1..]) == tail by {
      assert text[1..] == s[1..] + "}" + rest;
    }
    assert text[0] == s[0];
    CopyFirst(known, text, tail);
  }

  /** The text up to a '}' that has no default marker is copied through it. */
  lemma {:induction false} CopyThroughClose(known: set<string>, s: string, rest: string)
    requires '}' !in s && NoDefaultMarker(s)
    ensures ReplaceDefaults(known, s + "}" + rest) == s + "}" + ReplaceDefaults(known, rest)
    decreases |s|
  {
    NoDefaultRefBeforeClose(s, rest);
    var r := ReplaceDefaults(known, rest);
    if s == [] {
      var text := s + "}" + rest;
      assert text[1..] == rest;
      CopyFirst(known, text, r);
    } else {
      CopyThroughClose(known, s[1..], rest);
      CopyFirstBeforeClose(known, s, rest, s[1..] + "}" + r);
      ConsThroughClose(s, r);
    }
  }

  lemma ConsThroughClose(s: string, r: string)
    requires s != []
    ensures [s[0]] + (s[1..] + "}" + r) == s + "}" + r
  {
    assert s == [s[0]] + s[1..];
  }

  /** A reference without default, `${NAME}`, stays as written whether or not
      NAME is in the table, and the rewriting goes on after it. */
  lemma BareReference(known: set<string>, name: string, rest: string)
    requires '}' !in name && NoDefaultMarker(name)
    ensures ReplaceEnvVars(known, "${" + name + "}" + rest) == "${" + name + "}" + ReplaceEnvVars(known, rest)
  {
    var s := "${" + name;
    assert "${" + name + "}" + rest == s + "}" + rest;
    assert NoDefaultMarker(s) by {
      forall q | 0 <= q < |s| - 1 ensures !(s[q] == ':' && s[q + 1] == '-') {
        if q >= 2 {
          assert s[q] == name[q - 2] && s[q + 1] == name[q - 1];
        }
      }
    }
    CopyThroughClose(known, s, rest);
  }

  /** The match of the first pass over `${NAME:-default}` when the default has
      no further default marker. */
  lemma DefaultRefAtReference(name: string, fallback: string, rest: string)
    requires name != [] && '}' !in name
    requires fallback != [] && '}' !in fallback && NoDefaultMarker(fallback)
    ensures DefaultRefAt("${" + name + ":-" + fallback + "}" + rest)
         == Some(DefaultRef(name, fallback, |name| + |fallback| + 5))
  {
    var body := name + ":-" + fallback;
    var text := "${" + name + ":-" + fallback + "}" + rest;
    assert text == "${" + body + "}" + rest;
    assert BodyAt(text) == Some(body) by {
      BodyAtReference(body, rest);
    }
    assert SplitPoint(body) == Some(|name|) by {
      SplitPointOfReference(name, fallback);
    }
    assert body[..|name|] == name && body[|name| + 2..] == fallback;
    DefaultRefAtSplit(text, body, |name|, name, fallback, |name| + |fallback| + 5);
  }

  /** A body `NAME:-default` whose default has no marker of its own splits
      after the name. */
  lemma SplitPointOfReference(name: string, fallback: string)
    requires name != [] && fallback != [] && NoDefaultMarker(fallback)
    ensures SplitPoint(name + ":-" + fallback) == Some(|name|)
  {
    var body := name + ":-" + fallback;
    assert IsSplit(body, |name|);
    forall q | |name| < q && q + 2 < |body| ensures !(body[q] == ':' && body[q + 1] == '-') {
      if q == |name| + 1 {
        assert body[q] == '-';
      } else {
        var k := q - |name| - 2;
        assert body[q] == fallback[k] && body[q + 1] == fallback[k + 1];
      }
    }
  }

  /** The match found at a body and its split point. */
  lemma DefaultRefAtSplit(text: string, body: string, p: nat, name: string, fallback: string, width: nat)
    requires BodyAt(text) == Some(body) && SplitPoint(body) == Some(p)
    requires body[..p] == name && body[p + 2..] == fallback && width == |body| + 3
    ensures DefaultRefAt(text) == Some(DefaultRef(name, fallback, width))
  {
  }

  /** `${NAME:-d}` with NAME in the table becomes `${NAME}`: the default is
      dropped. */
  lemma KnownReference(known: set<string>, name: string, fallback: string, rest: string)
    requires name in known && name != [] && '}' !in name
    requires fallback != [] && '}' !in fallback && NoDefaultMarker(fallback)
    ensures ReplaceEnvVars(known, "${" + name + ":-" + fallback + "}" + rest)
         == "${" + name + "}" + ReplaceEnvVars(known, rest)
  {
    var text := "${" + name + ":-" + fallback + "}" + rest;
    DefaultRefAtReference(name, fallback, rest);
    assert text[|name| + |fallback| + 5..] == rest;
  }

  /** `${NAME:-d}` with NAME not in the table becomes the literal d. */
  lemma UnknownReference(known: set<string>, name: string, fallback: string, rest: string)
    requires name !in known && name != [] && '}' !in name
    requires fallback != [] && '}' !in fallback && NoDefaultMarker(fallback)
    ensures ReplaceEnvVars(known, "${" + name + ":-" + fallback + "}" + rest)
         == fallback + ReplaceEnvVars(known, rest)
  {
    var text := "${" + name + ":-" + fallback + "}" + rest;
    DefaultRefAtReference(name, fallback, rest);
    assert text[|name| + |fallback| + 5..] == rest;
  }

  /** Rewriting is not idempotent: a default ending in '$' joins the text
      after its reference into a new placeholder, which a second rewrite then
      resolves. With A and B not in the table, `${A:-$}{B:-d}` becomes
      `${B:-d}`, and that becomes d. */
  lemma RewriteNotIdempotent(known: set<string>, a: string, b: string, d: string)
    requires a !in known && a != [] && '}' !in a
    requires b !in known && b != [] && '}' !in b && '$' !in b
    requires d != [] && '}' !in d && '$' !in d && NoDefaultMarker(d)
    ensures ReplaceEnvVars(known, "${" + a + ":-$}{" + b + ":-" + d + "}") == "${" + b + ":-" + d + "}"
    ensures ReplaceEnvVars(known, "${" + b + ":-" + d + "}") == d
  {
    FirstRewriteJoins(known, a, b, d);
    SecondRewriteResolves(known, b, d);
  }

  lemma FirstRewriteJoins(known: set<string>, a: string, b: string, d: string)
    requires a !in known && a != [] && '}' !in a
    requires '}' !in b && '$' !in b && '$' !in d && '}' !in d
    ensures ReplaceEnvVars(known, "${" + a + ":-$}{" + b + ":-" + d + "}") == "${" + b + ":-" + d + "}"
  {
    var tail := "{" + b + ":-" + d + "}";
    JoinedReferences(a, b, d);
    UnknownReference(known, a, "$", tail);
    NoDollarNoOpening(tail);
    RewriteWithoutOpening(known, tail);
  }

  /** How the text of RewriteNotIdempotent reads: a reference with default
      "$", then the rest of a placeholder that lacks its '$'. */
  lemma JoinedReferences(a: string, b: string, d: string)
    requires '$' !in b && '$' !in d
    ensures "${" + a + ":-$}{" + b + ":-" + d + "}" == "${" + a + ":-" + "$" + "}" + ("{" + b + ":-" + d + "}")
    ensures "$" + ("{" + b + ":-" + d + "}") == "${" + b + ":-" + d + "}"
    ensures forall k :: 0 <= k < |"{" + b + ":-" + d + "}"| ==> ("{" + b + ":-" + d + "}")[k] != '$'
  {
    var tail := "{" + b + ":-" + d + "}";
    forall k | 0 <= k < |tail| ensures tail[k] != '$' {
      if 1 <= k < 1 + |b| {
        assert tail[k] == b[k - 1];
      } else if 3 + |b| <= k < 3 + |b| + |d| {
        assert tail[k] == d[k - 3 - |b|];
      }
    }
  }

  lemma SecondRewriteResolves(known: set<string>, b: string, d: string)
    requires b !in known && b != [] && '}' !in b
    requires d != [] && '}' !in d && NoDefaultMarker(d)
    ensures ReplaceEnvVars(known, "${" + b + ":-" + d + "}") == d
  {
    UnknownReference(known, b, d, "");
    assert "${" + b + ":-" + d + "}" + "" == "${" + b + ":-" + d + "}";
    RewriteWithoutOpening(known, "");
  }

  lemma {:induction false} NoDollarNoOpening(s: string)
    requires forall k :: 0 <= k < |s| ==> s[k] != '$'
    ensures !Infix("${", s)
    decreases |s|
  {
    if s != [] {
      assert !StartsWith(s, "${") by {
        if |s| >= 2 {
          assert s[..2][0] == s[0];
        }
      }
      NoDollarNoOpening(s[1..]);
    }
  }

  /** A text that is one placeholder yields its body as the only name. */
  lemma SingleReferenceFound(body: string)
    requires body != [] && '}' !in body
    ensures FindEnvVars("${" + body + "}") == {body}
  {
    var text := "${" + body + "}";
    assert text == "${" + body + "}" + "";
    BodyAtReference(body, "");
    assert text[|body| + 3..] == [];
  }

  /** Discovery keeps the default clause in the name: for `${NAME:-d}` it finds
      `NAME:-d`, not NAME, and so the rewriting, which looks up NAME, never
      sees the variable discovery created. */
  lemma DiscoveryKeepsDefaultClause(name: string, fallback: string)
    requires name != [] && '}' !in name && '}' !in fallback
    ensures FindEnvVars("${" + name + ":-" + fallback + "}") == {name + ":-" + fallback}
  {
    var body := name + ":-" + fallback;
    assert "${" + name + ":-" + fallback + "}" == "${" + body + "}";
    SingleReferenceFound(body);
  }

  /** Text without any `${` holds no placeholder. */
  lemma {:induction false} NoOpeningNoNames(text: string)
    requires !Infix("${", text)
    ensures FindEnvVars(text) == {}
    decreases |text|
  {
    if text != [] {
      assert !StartsWith(text, "${");
      NoOpeningNoNames(text[1..]);
    }
  }

  /** A reference `${NAME}` is discovered wherever it stands, provided no
      `${` before it opens a match that would swallow it (see
      `OverlapHidesReference`). */
  lemma {:induction false} ReferenceDiscovered(prefix: string, name: string, rest: string)
    requires name != [] && '}' !in name && !Infix("${", prefix)
    ensures name in FindEnvVars(prefix + "${" + name + "}" + rest)
    decreases |prefix|
  {
    var text := prefix + "${" + name + "}" + rest;
    if prefix == [] {
      assert text == "${" + name + "}" + rest;
      BodyAtReference(name, rest);
    } else {
      assert !StartsWith(prefix, "${");
      assert text[0] == prefix[0];
      if |prefix| == 1 {
        assert text[1] == '$';
      } else {
        assert text[1] == prefix[1];
      }
      assert BodyAt(text).None?;
      assert text[1..] == prefix[1..] + "${" + name + "}" + rest;
      ReferenceDiscovered(prefix[1..], name, rest);
    }
  }

  /** Two references separated by text without `${` are both found, as in
      `${REGISTRY}/app:${TAG}`. */
  lemma ReferencesInSequence(a: string, sep: string, b: string, rest: string)
    requires a != [] && '}' !in a && b != [] && '}' !in b && !Infix("${", sep)
    ensures var names := FindEnvVars("${" + a + "}" + sep + "${" + b + "}" + rest);
      a in names && b in names
  {
    var tail := sep + "${" + b + "}" + rest;
    assert "${" + a + "}" + sep + "${" + b + "}" + rest == "${" + a + "}" + tail;
    FindEnvVarsAfterReference(a, tail);
    ReferenceDiscovered(sep, b, rest);
  }

  /** A character other than '$' starts no placeholder and adds no name. */
  lemma FindEnvVarsSkip(c: char, rest: string)
    requires c != '$'
    ensures FindEnvVars([c] + rest) == FindEnvVars(rest)
  {
    assert ([c] + rest)[1..] == rest;
  }

  /** `${a}/${b}` names exactly `a` and `b`. */
  lemma TwoReferences(a: string, b: string)
    requires a != [] && '}' !in a && b != [] && '}' !in b
    ensures FindEnvVars("${" + a + "}" + "/" + "${" + b + "}") == {a, b}
  {
    var second := "${" + b + "}" + [];
    assert "${" + a + "}" + "/" + "${" + b + "}" == "${" + a + "}" + (['/'] + second);
    FindEnvVarsAfterReference(a, ['/'] + second);
    FindEnvVarsSkip('/', second);
    FindEnvVarsAfterReference(b, []);
  }



  /** A `${` that opens a match before a reference hides it: in `${${A}` the
      match runs from the first `${` to the `}`, so the name found is `${A`
      and `A` is not found. */
  lemma OverlapHidesReference()
    ensures FindEnvVars("${${A}") == {"${A"}
  {
    var text := "${${A}";
    assert text[2..] == "${A" + "}" + [];
    FirstCloseAfter("${A", []);
    assert text[2..5] == "${A";
    assert BodyAt(text) == Some("${A");
    assert text[6..] == [];
  }
}
