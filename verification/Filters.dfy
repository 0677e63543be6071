/**
 Filter compilation (lib/poll.js).

 A subscription filter is a string.  It is read twice: by the in-memory matcher `MatchesFilter` and
 by `BuildFilterSql`, which compiles it to a conjunction of SQL conditions evaluated by SQLite.
 The module says exactly when the two readings agree.
 */
module Filters {
  import opened Wrappers

  // ---------------------------------------------------------------- strings

  predicate StartsWith(s: string, prefix: string) {
    |prefix| <= |s| && s[..|prefix|] == prefix
  }

  predicate EndsWith(s: string, suffix: string) {
    |suffix| <= |s| && s[|s| - |suffix|..] == suffix
  }

  /** Position of the first `c` in `s`, or `|s|` when there is none. */
  function IndexOf(s: string, c: char): (i: nat)
    ensures i <= |s| && c !in s[..i]
    ensures i < |s| ==> s[i] == c
    ensures i == |s| <==> c !in s
  {
    if s == "" then 0
    else if s[0] == c then 0
    else
      var j := IndexOf(s[1..], c);
      assert s == [s[0]] + s[1..];
      assert s[..j + 1] == [s[0]] + s[1..][..j];
      j + 1
  }

  /** The part before the first '@', and the part after it when there is one. */
  function SplitFilter(filter: string): (string, Option<string>) {
    var at := IndexOf(filter, '@');
    if at < |filter| then (filter[..at], Some(filter[at + 1..])) else (filter, None)
  }

  // ---------------------------------------------------------------- event types

  predicate SegmentChar(c: char) {
    'a' <= c <= 'z' || '0' <= c <= '9' || c == '_'
  }

  /** One or more nonempty segments of [a-z0-9_] separated by single dots. */
  predicate Segments(s: string) {
    && s != ""
    && (forall i | 0 <= i < |s| :: SegmentChar(s[i]) || s[i] == '.')
    && s[0] != '.' && s[|s| - 1] != '.'
    && (forall i | 0 <= i < |s| - 1 :: s[i] == '.' ==> s[i + 1] != '.')
  }

  /** The event types `emit` accepts (lib/validate.js). */
  predicate ValidEventType(t: string) {
    |t| <= 128 && StartsWith(t, "wicked.") && Segments(t[7..])
  }

  // ---------------------------------------------------------------- the matcher

  predicate MatchesType(t: string, pattern: string) {
    if pattern == "*" || pattern == t then true
    else if EndsWith(pattern, ".**") then
      var prefix := pattern[..|pattern| - 3];
      StartsWith(t, prefix + ".") && t[|prefix| + 1..] != ""
    else if EndsWith(pattern, ".*") then
      var prefix := pattern[..|pattern| - 2];
      StartsWith(t, prefix + ".") && t[|prefix| + 1..] != "" && '.' !in t[|prefix| + 1..]
    else false
  }

  /** An absent or empty domain part admits every domain. */
  predicate DomainAdmits(d: Option<string>, domain: string) {
    d.None? || d.value == "" || d.value == domain
  }

  predicate MatchesFilter(t: string, domain: string, filter: string) {
    var (pattern, d) := SplitFilter(filter);
    DomainAdmits(d, domain) && MatchesType(t, pattern)
  }

  // ---------------------------------------------------------------- SQLite's LIKE

  function FoldChar(c: char): char {
    if 'A' <= c <= 'Z' then (c as int + 32) as char else c
  }

  /** ASCII lower-casing: LIKE compares characters after this folding. */
  function Fold(s: string): (r: string)
    ensures |r| == |s|
    ensures forall i | 0 <= i < |s| :: r[i] == FoldChar(s[i])
  {
    seq(|s|, i requires 0 <= i < |s| => FoldChar(s[i]))
  }

  /** `text LIKE pattern ESCAPE '\'`. */
  predicate Like(pattern: string, text: string)
    decreases |pattern|, |text|
  {
    if pattern == "" then text == ""
    else if pattern[0] == '%' then
      Like(pattern[1..], text) || (text != "" && Like(pattern, text[1..]))
    else if pattern[0] == '\\' then
      |pattern| >= 2 && text != "" && FoldChar(pattern[1]) == FoldChar(text[0]) && Like(pattern[2..], text[1..])
    else if pattern[0] == '_' then
      text != "" && Like(pattern[1..], text[1..])
    else
      text != "" && FoldChar(pattern[0]) == FoldChar(text[0]) && Like(pattern[1..], text[1..])
  }

  function EscapeLike(s: string): string {
    if s == "" then ""
    else (if s[0] == '\\' || s[0] == '%' || s[0] == '_' then ['\\', s[0]] else [s[0]]) + EscapeLike(s[1..])
  }

  // ---------------------------------------------------------------- the compiler

  datatype Condition =
    | DomainIs(domain: string)
    | TypeIs(exact: string)
    | TypeLike(pattern: string)
    | TypeNotLike(pattern: string)

  predicate Holds(c: Condition, t: string, domain: string) {
    match c
    case DomainIs(d) => domain == d
    case TypeIs(x) => t == x
    case TypeLike(p) => Like(p, t)
    case TypeNotLike(p) => !Like(p, t)
  }

  function CompileType(pattern: string): seq<Condition> {
    if pattern == "*" then []
    else if EndsWith(pattern, ".**") then
      [TypeLike(EscapeLike(pattern[..|pattern| - 3]) + ".%")]
    else if EndsWith(pattern, ".*") then
      var prefix := EscapeLike(pattern[..|pattern| - 2]);
      [TypeLike(prefix + ".%"), TypeNotLike(prefix + ".%.%")]
    else [TypeIs(pattern)]
  }

  function CompileDomain(d: Option<string>): seq<Condition> {
    if d.None? || d.value == "" then [] else [DomainIs(d.value)]
  }

  function BuildFilterSql(filter: string): seq<Condition> {
    var (pattern, d) := SplitFilter(filter);
    CompileDomain(d) + CompileType(pattern)
  }

  predicate AllHold(cs: seq<Condition>, t: string, domain: string) {
    cs == [] || (Holds(cs[0], t, domain) && AllHold(cs[1..], t, domain))
  }

  /** The WHERE clause: the conjunction of the compiled conditions. */
  predicate Selects(filter: string, t: string, domain: string) {
    AllHold(BuildFilterSql(filter), t, domain)
  }

  // ---------------------------------------------------------------- what LIKE means on compiled patterns

  /** An escaped prefix matches itself up to ASCII case, whatever wildcards it contains. */
  lemma {:induction false} LikeEscaped(prefix: string, rest: string, text: string)
    ensures Like(EscapeLike(prefix) + rest, text)
       <==> |prefix| <= |text| && Fold(text[..|prefix|]) == Fold(prefix) && Like(rest, text[|prefix|..])
  {
    if prefix == "" {
      assert EscapeLike(prefix) + rest == rest && text[0..] == text;
    } else {
      LikeEscapedChar(prefix, rest, text);
      if text != "" {
        LikeEscaped(prefix[1..], rest, text[1..]);
        if |prefix| <= |text| { FoldFront(prefix, text); }
      }
    }
  }

  /** The first character of an escaped prefix matches itself, up to case. */
  lemma LikeEscapedChar(prefix: string, rest: string, text: string)
    requires prefix != ""
    ensures Like(EscapeLike(prefix) + rest, text)
       <==> text != "" && FoldChar(text[0]) == FoldChar(prefix[0]) && Like(EscapeLike(prefix[1..]) + rest, text[1..])
  {
    var esc, tail := EscapeLike(prefix), EscapeLike(prefix[1..]);
    if prefix[0] == '\\' || prefix[0] == '%' || prefix[0] == '_' {
      assert esc + rest == ['\\', prefix[0]] + (tail + rest);
      assert (esc + rest)[2..] == tail + rest;
    } else {
      assert esc + rest == [prefix[0]] + (tail + rest);
      assert (esc + rest)[1..] == tail + rest;
    }
  }

  lemma FoldFront(prefix: string, text: string)
    requires 0 < |prefix| <= |text|
    ensures text[1..][|prefix| - 1..] == text[|prefix|..]
    ensures Fold(text[..|prefix|]) == Fold(prefix)
       <==> FoldChar(text[0]) == FoldChar(prefix[0]) && Fold(text[1..][..|prefix| - 1]) == Fold(prefix[1..])
  {
    assert text[1..][..|prefix| - 1] == text[..|prefix|][1..];
    assert Fold(text[..|prefix|]) == [FoldChar(text[0])] + Fold(text[..|prefix|][1..]);
    assert Fold(prefix) == [FoldChar(prefix[0])] + Fold(prefix[1..]);
  }

  lemma {:induction false} LikeAnything(text: string)
    ensures Like("%", text)
    decreases |text|
  {
    assert "%"[1..] == "";
    if text != "" { LikeAnything(text[1..]); }
  }

  /** '%.%' finds a dot anywhere. */
  lemma {:induction false} LikeSomeDot(text: string)
    ensures Like("%.%", text) <==> '.' in text
    decreases |text|
  {
    assert "%.%"[1..] == ".%" && ".%"[1..] == "%";
    if text != "" {
      LikeSomeDot(text[1..]);
      LikeAnything(text[1..]);
      assert text == [text[0]] + text[1..];
    }
  }

  lemma LikeUnderPrefix(prefix: string, t: string)
    ensures Like(EscapeLike(prefix) + ".%", t)
       <==> |prefix| < |t| && Fold(t[..|prefix|]) == Fold(prefix) && t[|prefix|] == '.'
    ensures Like(EscapeLike(prefix) + ".%.%", t)
       <==> |prefix| < |t| && Fold(t[..|prefix|]) == Fold(prefix) && t[|prefix|] == '.' && '.' in t[|prefix| + 1..]
  {
    LikeEscaped(prefix, ".%", t);
    LikeEscaped(prefix, ".%.%", t);
    if |prefix| <= |t| {
      LikeAfterDot(t[|prefix|..]);
      if |prefix| < |t| { assert t[|prefix|..][1..] == t[|prefix| + 1..]; }
    }
  }

  lemma LikeAfterDot(rest: string)
    ensures Like(".%", rest) <==> rest != "" && rest[0] == '.'
    ensures Like(".%.%", rest) <==> rest != "" && rest[0] == '.' && '.' in rest[1..]
  {
    assert ".%"[1..] == "%" && ".%.%"[1..] == "%.%";
    if rest != "" {
      LikeAnything(rest[1..]);
      LikeSomeDot(rest[1..]);
    }
  }

  // ---------------------------------------------------------------- equivalence

  /** The literal part of a wildcard pattern; None for `*` and for exact patterns. */
  function WildcardPrefix(pattern: string): Option<string> {
    if pattern == "*" then None
    else if EndsWith(pattern, ".**") then Some(pattern[..|pattern| - 3])
    else if EndsWith(pattern, ".*") then Some(pattern[..|pattern| - 2])
    else None
  }

  predicate HasUpper(s: string) {
    exists i | 0 <= i < |s| :: 'A' <= s[i] <= 'Z'
  }

  lemma FoldFixed(s: string)
    ensures Fold(s) == s <==> !HasUpper(s)
    ensures !HasUpper(Fold(s))
  {
    if HasUpper(s) {
      var i :| 0 <= i < |s| && 'A' <= s[i] <= 'Z';
      assert Fold(s)[i] != s[i];
    }
  }

  lemma ValidChars(t: string)
    requires ValidEventType(t)
    ensures forall i | 0 <= i < |t| :: SegmentChar(t[i]) || t[i] == '.'
    ensures !HasUpper(t) && '*' !in t && t[|t| - 1] != '.'
    ensures forall i | 0 <= i < 6 :: t[i] != '.'
    ensures forall i | 0 <= i < |t| - 1 :: t[i] == '.' ==> t[i + 1] != '.'
  {
    var w := "wicked.";
    assert t[..7] == w && t == w + t[7..];
    forall i | 0 <= i < |t| ensures SegmentChar(t[i]) || t[i] == '.' {
      if i < 7 { assert t[i] == w[i]; } else { assert t[i] == t[7..][i - 7]; }
    }
    forall i | 0 <= i < |t| - 1 ensures t[i] == '.' ==> t[i + 1] != '.' {
      if i < 6 {
        assert t[i] == w[i];
      } else {
        assert t[i + 1] == t[7..][i - 6];
        if i > 6 { assert t[i] == t[7..][i - 7]; }
      }
    }
    assert t[|t| - 1] == t[7..][|t[7..]| - 1];
    forall i | 0 <= i < 6 ensures t[i] != '.' { assert t[i] == w[i]; }
  }

  /** On valid types, the compiled type conditions match the pattern with its literal part folded. */
  lemma CompiledTypeMeaning(pattern: string, t: string, domain: string)
    requires ValidEventType(t)
    ensures match WildcardPrefix(pattern)
            case None => AllHold(CompileType(pattern), t, domain) <==> MatchesType(t, pattern)
            case Some(p) =>
              && (AllHold(CompileType(pattern), t, domain) <==>
                  Under(t, Fold(p)) && (EndsWith(pattern, ".**") || '.' !in t[|p| + 1..]))
              && (MatchesType(t, pattern) <==> Under(t, p) && (EndsWith(pattern, ".**") || '.' !in t[|p| + 1..]))
  {
    var cs := CompileType(pattern);
    match WildcardPrefix(pattern)
    case None =>
      if pattern != "*" {
        assert cs == [TypeIs(pattern)];
        assert cs[0] == TypeIs(pattern);
      }
    case Some(p) =>
      ValidChars(t);
      assert pattern[|pattern| - 1] == '*' by {
        if EndsWith(pattern, ".**") {
          assert pattern[|pattern| - 3..][2] == '*';
        } else {
          assert pattern[|pattern| - 2..][1] == '*';
        }
      }
      assert pattern != t;
      UnderIsStartsWith(t, p);
      WildcardSql(pattern, p, t, domain);
      FoldFixed(t);
      if |p| < |t| {
        assert Fold(t[..|p|]) == t[..|p|];
        if t[|p|] == '.' { assert t[|p| + 1..] != ""; }
      }
  }

  lemma WildcardSql(pattern: string, p: string, t: string, domain: string)
    requires WildcardPrefix(pattern) == Some(p)
    ensures AllHold(CompileType(pattern), t, domain) <==>
            && |p| < |t| && Fold(t[..|p|]) == Fold(p) && t[|p|] == '.'
            && (EndsWith(pattern, ".**") || '.' !in t[|p| + 1..])
  {
    LikeUnderPrefix(p, t);
    var like, multi := TypeLike(EscapeLike(p) + ".%"), TypeNotLike(EscapeLike(p) + ".%.%");
    if EndsWith(pattern, ".**") {
      assert CompileType(pattern) == [like] && [like][1..] == [];
    } else {
      assert CompileType(pattern) == [like, multi] && [like, multi][1..] == [multi] && [multi][1..] == [];
      assert AllHold([multi], t, domain) == Holds(multi, t, domain);
    }
  }

  /** `t` is `p`, a dot, and more. */
  predicate Under(t: string, p: string) {
    |p| < |t| && t[..|p|] == p && t[|p|] == '.'
  }

  lemma UnderIsStartsWith(t: string, p: string)
    ensures StartsWith(t, p + ".") <==> Under(t, p)
  {
    if |p| < |t| {
      assert t[..|p| + 1] == t[..|p|] + [t[|p|]];
      if StartsWith(t, p + ".") {
        assert (p + ".")[..|p|] == p && t[..|p| + 1][..|p|] == t[..|p|];
        assert (p + ".")[|p|] == '.';
      }
    }
  }

  lemma SelectsMeaning(filter: string, t: string, domain: string)
    ensures var (pattern, d) := SplitFilter(filter);
            Selects(filter, t, domain) <==> DomainAdmits(d, domain) && AllHold(CompileType(pattern), t, domain)
  {
    var (pattern, d) := SplitFilter(filter);
    var cd, ct := CompileDomain(d), CompileType(pattern);
    if cd == [] {
      assert cd + ct == ct;
    } else {
      assert cd + ct == [DomainIs(d.value)] + ct && (cd + ct)[1..] == ct;
    }
  }

  // ---------------------------------------------------------------- what a filter text says

  /** What follows the first '@' is a domain, and no domain when it is empty; what comes before it is a type pattern. */
  lemma DomainPart(p: string, d: string, t: string, domain: string)
    requires '@' !in p
    ensures MatchesFilter(t, domain, p + "@" + d) <==> (d == "" || domain == d) && MatchesType(t, p)
    ensures Selects(p + "@" + d, t, domain) <==> (d == "" || domain == d) && AllHold(CompileType(p), t, domain)
  {
    var f := p + "@" + d;
    FirstAt(p, d);
    assert f[..|p|] == p && f[|p| + 1..] == d;
    SelectsMeaning(f, t, domain);
  }

  /** A filter without an '@' is a type pattern, for every domain. */
  lemma NoDomainPart(f: string, t: string, domain: string)
    requires '@' !in f
    ensures MatchesFilter(t, domain, f) <==> MatchesType(t, f)
    ensures Selects(f, t, domain) <==> AllHold(CompileType(f), t, domain)
  {
    assert IndexOf(f, '@') == |f|;
    SelectsMeaning(f, t, domain);
  }

  lemma FirstAt(p: string, d: string)
    requires '@' !in p
    ensures IndexOf(p + "@" + d, '@') == |p|
  {
    var f := p + "@" + d;
    assert f[|p|] == '@' && f[..|p|] == p;
  }

  /** What each shape of type pattern matches: more segments below the prefix, exactly one, or the very text. */
  lemma TypePatterns(q: string, t: string)
    ensures MatchesType(t, "*")
    ensures MatchesType(t, q + ".**") <==> t == q + ".**" || (Under(t, q) && t[|q| + 1..] != "")
    ensures MatchesType(t, q + ".*") <==>
            t == q + ".*" || (Under(t, q) && t[|q| + 1..] != "" && '.' !in t[|q| + 1..])
    ensures q != "*" && !EndsWith(q, ".*") && !EndsWith(q, ".**") ==> (MatchesType(t, q) <==> t == q)
  {
    WildcardShapes(q);
    UnderIsStartsWith(t, q);
  }

  /** What each shape selects: prefixes are compared without regard to ASCII case. */
  lemma TypeClauses(q: string, t: string, domain: string)
    ensures AllHold(CompileType("*"), t, domain)
    ensures AllHold(CompileType(q + ".**"), t, domain) <==> FoldedUnder(t, q)
    ensures AllHold(CompileType(q + ".*"), t, domain) <==> FoldedUnder(t, q) && '.' !in t[|q| + 1..]
    ensures q != "*" && !EndsWith(q, ".*") && !EndsWith(q, ".**") ==>
            (AllHold(CompileType(q), t, domain) <==> t == q)
  {
    WildcardShapes(q);
    WildcardSql(q + ".**", q, t, domain);
    WildcardSql(q + ".*", q, t, domain);
    if q != "*" && !EndsWith(q, ".*") && !EndsWith(q, ".**") {
      assert CompileType(q) == [TypeIs(q)] && [TypeIs(q)][1..] == [];
    }
  }

  /** `t` begins with the prefix, up to ASCII case, and a dot. */
  predicate FoldedUnder(t: string, q: string) {
    |q| < |t| && t[|q|] == '.' && forall i | 0 <= i < |q| :: Fold(t)[i] == Fold(q)[i]
  }

  lemma WildcardShapes(q: string)
    ensures WildcardPrefix(q + ".**") == Some(q) && WildcardPrefix(q + ".*") == Some(q)
    ensures EndsWith(q + ".**", ".**") && EndsWith(q + ".*", ".*") && !EndsWith(q + ".*", ".**")
    ensures (q + ".**")[..|q + ".**"| - 3] == q && (q + ".*")[..|q + ".*"| - 2] == q
  {
    var many, one := q + ".**", q + ".*";
    assert many[|many| - 3..] == ".**" && many[..|many| - 3] == q;
    assert one[|one| - 2..] == ".*" && one[..|one| - 2] == q && one[|one| - 2] == '.';
    assert |one| >= 3 ==> one[|one| - 3..][1] == '.';
  }

  /** The longest types `emit` accepts have 128 characters. */
  lemma LongestType(s: string)
    requires s != "" && forall i | 0 <= i < |s| :: SegmentChar(s[i])
    ensures ValidEventType("wicked." + s) <==> |s| <= 121
  {
    var t := "wicked." + s;
    assert t[..7] == "wicked." && t[7..] == s;
  }

  // ---------------------------------------------------------------- where the two readings agree

  /** The compiled clause and the matcher agree on every valid event when the type part has no capital letter. */
  lemma FilterEquivalence(filter: string, t: string, domain: string)
    requires ValidEventType(t)
    requires !HasUpper(SplitFilter(filter).0)
    ensures Selects(filter, t, domain) <==> MatchesFilter(t, domain, filter)
  {
    var (pattern, d) := SplitFilter(filter);
    SelectsMeaning(filter, t, domain);
    CompiledTypeMeaning(pattern, t, domain);
    match WildcardPrefix(pattern) {
      case None =>
      case Some(p) =>
        assert forall i | 0 <= i < |p| :: p[i] == pattern[i];
        FoldFixed(p);
    }
  }

  /**
   What a caller can check about a filter and a domain: LIKE's case folding is harmless, because there
   is no wildcard, the domain is excluded anyway, the literal prefix has no capital letter, or no
   valid event type lies under the folded prefix.
   */
  predicate FoldingHarmless(filter: string, domain: string) {
    var (pattern, d) := SplitFilter(filter);
    var prefix := WildcardPrefix(pattern);
    || prefix.None?
    || !DomainAdmits(d, domain)
    || !HasUpper(prefix.value)
    || !ValidEventType(Fold(prefix.value) + ".x")
  }

  ghost predicate AgreeOnAllTypes(filter: string, domain: string) {
    forall t: string | ValidEventType(t) :: Selects(filter, t, domain) <==> MatchesFilter(t, domain, filter)
  }

  /** Exactly when the SQL clause and the matcher agree on every valid event type. */
  lemma FilterEquivalenceExact(filter: string, domain: string)
    ensures AgreeOnAllTypes(filter, domain) <==> FoldingHarmless(filter, domain)
  {
    var (pattern, d) := SplitFilter(filter);
    var prefix := WildcardPrefix(pattern);
    forall t: string | ValidEventType(t)
      ensures FoldingHarmless(filter, domain) ==> (Selects(filter, t, domain) <==> MatchesFilter(t, domain, filter))
    {
      SelectsMeaning(filter, t, domain);
      CompiledTypeMeaning(pattern, t, domain);
      if prefix.Some? {
        FoldFixed(prefix.value);
        if HasUpper(prefix.value) {
          if Under(t, prefix.value) { MatchedPrefixIsLower(prefix.value, t); }
          if Under(t, Fold(prefix.value)) { PrefixExtends(Fold(prefix.value), t); }
        }
      }
    }
    if !FoldingHarmless(filter, domain) {
      var p := prefix.value;
      var t := Fold(p) + ".x";
      SelectsMeaning(filter, t, domain);
      CompiledTypeMeaning(pattern, t, domain);
      FoldFixed(p);
      assert t[..|p|] == Fold(p) != p && t[|p|] == '.';
      assert t[..|p| + 1] == Fold(p) + "." && t[|p| + 1..] == "x";
      assert Selects(filter, t, domain) && !MatchesFilter(t, domain, filter);
    }
  }

  lemma MatchedPrefixIsLower(p: string, t: string)
    requires ValidEventType(t) && Under(t, p)
    ensures !HasUpper(p)
  {
    ValidChars(t);
    forall i | 0 <= i < |p| ensures p[i] == t[i] { assert t[..|p|][i] == p[i]; }
  }

  lemma PrefixExtends(q: string, t: string)
    requires ValidEventType(t) && Under(t, q)
    ensures ValidEventType(q + ".x")
  {
    ValidChars(t);
    var u := q + ".x";
    assert |q| >= 6;
    assert |q| < |t| - 1;
    assert forall i | 0 <= i <= |q| :: u[i] == t[i] by {
      assert t[..|q|] == q;
      forall i | 0 <= i < |q| ensures u[i] == t[i] { assert t[..|q|][i] == q[i]; }
    }
    assert u[..7] == t[..7];
    var s := u[7..];
    assert forall i | 0 <= i < |s| :: s[i] == u[i + 7];
    forall i | 0 <= i < |s| - 1 ensures s[i] == '.' ==> s[i + 1] != '.' {
      if i + 7 < |q| { assert t[i + 7] == s[i]; assert t[i + 8] == s[i + 1]; }
    }
    assert s[0] != '.' by {
      if |q| >= 7 { assert s[0] == t[7] && t[6] == "wicked."[6] by { assert t[..7][6] == "wicked."[6]; } }
    }
  }

  /** Any capital letter before `.*`: SQL selects an event type that the matcher refuses. */
  lemma CapitalPrefixDisagrees(p: string, domain: string)
    requires HasUpper(p) && '@' !in p && ValidEventType(Fold(p) + ".x")
    ensures Selects(p + ".*", Fold(p) + ".x", domain) && !MatchesFilter(Fold(p) + ".x", domain, p + ".*")
  {
    var f, t := p + ".*", Fold(p) + ".x";
    assert SplitFilter(f) == (f, None) by { assert IndexOf(f, '@') == |f|; }
    assert f[..|f| - 2] == p && f[|f| - 2..] == ".*" && f[|f| - 3..][1] == '.';
    SelectsMeaning(f, t, domain);
    CompiledTypeMeaning(f, t, domain);
    FoldFixed(p);
    assert t[..|p|] == Fold(p) && t[|p| + 1..] == "x";
  }

  /** The filter `Wicked.*` is one: it disagrees on `wicked.x`. */
  lemma CapitalLetterDisagrees()
    ensures Selects("Wicked.*", "wicked.x", "d") && !MatchesFilter("wicked.x", "d", "Wicked.*")
  {
    var p := "Wicked";
    assert 'A' <= p[0] <= 'Z';
    assert Fold(p) + ".x" == "wicked.x" && p + ".*" == "Wicked.*";
    assert ValidEventType("wicked.x") by { assert "wicked.x"[..7] == "wicked." && "wicked.x"[7..] == "x"; }
    CapitalPrefixDisagrees(p, "d");
  }
}
