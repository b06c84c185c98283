/**
 * Route patterns. The router hands every route key to
 * `preg_match('|^' . $routeUri . '$|', $uri, $matches)`; the model keeps
 * that as a parameter of type `Matcher` (anchored match, captures without
 * the whole-match group 0), and supplies one concrete matcher for the
 * pattern language the repository's own routes use: literal characters and
 * the digit group `([0-9]+)`.
 */
module Patterns {
  import opened Php

  /** The outcome of matching a route pattern against a whole URI: the captured groups. */
  type Matcher = (string, string) -> Option<seq<string>>

  /** The one regex construct of the small pattern language. */
  const DigitGroup: string := "([0-9]+)"

  predicate StartsWithGroup(p: string)
  {
    |p| >= |DigitGroup| && p[..|DigitGroup|] == DigitGroup
  }

  /** Characters PCRE would not read literally (with '|' as the delimiter). */
  predicate IsMeta(c: char)
  {
    c in ".\\+*?[^]$(){}|"
  }

  /** A pattern without metacharacters: PCRE matches it character by character. */
  predicate IsLiteral(p: string)
  {
    forall i :: 0 <= i < |p| ==> !IsMeta(p[i])
  }

  /** Number of digit groups in a pattern of the small language. */
  function GroupCount(p: string): nat
  {
    if p == [] then 0
    else if StartsWithGroup(p) then 1 + GroupCount(p[|DigitGroup|..])
    else GroupCount(p[1..])
  }

  /**
   * Anchored match of the small language: literal characters compare
   * equal, a digit group takes the longest run of digits that still lets
   * the rest match (PCRE's greedy quantifier with backtracking).
   */
  function Match(pattern: string, subject: string): (r: Option<seq<string>>)
    decreases |pattern| + |subject|, 1, 0
  {
    if pattern == [] then (if subject == [] then Some([]) else None)
    else if StartsWithGroup(pattern) then
      MatchGroup(pattern[|DigitGroup|..], subject, Span(subject, IsDigit))
    else if subject != [] && subject[0] == pattern[0] then Match(pattern[1..], subject[1..])
    else None
  }

  /** Try the digit group with `n`, `n - 1`, ..., 1 leading digits of `subject`. */
  function MatchGroup(rest: string, subject: string, n: nat): (r: Option<seq<string>>)
    requires n <= |subject|
    decreases |rest| + |DigitGroup| + |subject|, 0, n
  {
    if n == 0 then None
    else match Match(rest, subject[n..])
      case Some(caps) => Some([subject[..n]] + caps)
      case None => MatchGroup(rest, subject, n - 1)
  }

  lemma {:induction false} MatchCaptures(pattern: string, subject: string)
    ensures Match(pattern, subject).Some? ==> |Match(pattern, subject).value| == GroupCount(pattern)
    ensures Match(pattern, subject).Some? ==> forall i :: 0 <= i < |Match(pattern, subject).value| ==> IsDigits(Match(pattern, subject).value[i])
    decreases |pattern| + |subject|, 1, 0
  {
    if pattern == [] {
    } else if StartsWithGroup(pattern) {
      SpanPrefix(subject, IsDigit);
      MatchGroupCaptures(pattern[|DigitGroup|..], subject, Span(subject, IsDigit));
    } else if subject != [] && subject[0] == pattern[0] {
      MatchCaptures(pattern[1..], subject[1..]);
    }
  }

  lemma {:induction false} MatchGroupCaptures(rest: string, subject: string, n: nat)
    requires n <= |subject| && forall i :: 0 <= i < n ==> IsDigit(subject[i])
    ensures MatchGroup(rest, subject, n).Some? ==> |MatchGroup(rest, subject, n).value| == 1 + GroupCount(rest)
    ensures MatchGroup(rest, subject, n).Some? ==> forall i :: 0 <= i < |MatchGroup(rest, subject, n).value| ==> IsDigits(MatchGroup(rest, subject, n).value[i])
    decreases |rest| + |DigitGroup| + |subject|, 0, n
  {
    if n > 0 {
      MatchCaptures(rest, subject[n..]);
      MatchGroupCaptures(rest, subject, n - 1);
    }
  }

  /** A non-empty run of digits: what `([0-9]+)` captures. */
  predicate IsDigits(s: string)
  {
    |s| > 0 && forall i :: 0 <= i < |s| ==> IsDigit(s[i])
  }

  /**
   * A pattern without regex syntax matches exactly the URI equal to it, and
   * captures nothing: the literal routes of the router behave as plain keys.
   */
  lemma {:induction false} LiteralMatch(pattern: string, subject: string)
    requires IsLiteral(pattern)
    ensures Match(pattern, subject) == if pattern == subject then Some([]) else None
    decreases |pattern|
  {
    if pattern != [] {
      assert IsMeta('(');
      assert !StartsWithGroup(pattern) by { assert pattern[0] != '('; }
      if subject != [] && subject[0] == pattern[0] {
        LiteralMatch(pattern[1..], subject[1..]);
        if pattern[1..] == subject[1..] {
          assert pattern == [pattern[0]] + pattern[1..];
          assert subject == [subject[0]] + subject[1..];
        }
      }
    }
  }

  /** A literal prefix without groups is consumed on both sides. */
  lemma {:induction false} LiteralPrefix(lit: string, pattern: string, subject: string)
    requires forall i :: 0 <= i < |lit| ==> lit[i] != '('
    ensures Match(lit + pattern, lit + subject) == Match(pattern, subject)
    decreases |lit|
  {
    if lit != [] {
      var p := lit + pattern;
      assert p[0] == lit[0] != DigitGroup[0];
      assert !StartsWithGroup(p);
      assert p[1..] == lit[1..] + pattern;
      assert (lit + subject)[1..] == lit[1..] + subject;
      LiteralPrefix(lit[1..], pattern, subject);
    } else {
      assert lit + pattern == pattern && lit + subject == subject;
    }
  }

  /** A bare digit group matches any run of digits whole, capturing it. */
  lemma {:induction false} DigitGroupMatches(d: string)
    requires IsDigits(d)
    ensures Match(DigitGroup, d) == Some([d])
  {
    assert StartsWithGroup(DigitGroup);
    SpanAll(d, IsDigit);
    var empty: string := DigitGroup[|DigitGroup|..];
    assert empty == [];
    assert d[|d|..] == [];
    assert Match(empty, d[|d|..]) == Some([]);
    assert d[..|d|] == d;
    var none: seq<string> := [];
    assert [d] + none == [d];
  }

  /** The route of the repository's test controller: "stats/23" matches "stats/([0-9]+)" capturing "23". */
  lemma {:induction false} StatsRoute()
    ensures Match("stats/" + DigitGroup, "stats/23") == Some(["23"])
    ensures Match("stats/" + DigitGroup, "stats") == None
  {
    DigitGroupMatches("23");
    LiteralPrefix("stats/", DigitGroup, "23");
    assert "stats/" + "23" == "stats/23";
    LiteralPrefix("stats", "/" + DigitGroup, "");
    assert "stats" + ("/" + DigitGroup) == "stats/" + DigitGroup;
    assert "stats" + "" == "stats";
  }
}
