/**
 * The URL and name helpers of `Abigail\Kernel\Utils`, and the parameter-name
 * rule that `Inspector::argumentName` defines (the dispatcher reaches it as
 * `Utils::argumentName`).
 */
module Utils {
  import opened Php

  /** `startsWith`: the needle is found at position 0. */
  predicate StartsWith(haystack: string, needle: string)
  {
    StrPos(haystack, needle) == Some(0)
  }

  /** `strpos(...) === 0` holds exactly when the needle is a prefix. */
  lemma {:induction false} StartsWithIsPrefix(haystack: string, needle: string)
    ensures StartsWith(haystack, needle) <==> |needle| <= |haystack| && haystack[..|needle|] == needle
  {
    if |needle| <= |haystack| && haystack[..|needle|] == needle {
      assert OccursAt(haystack, needle, 0);
    }
  }

  /** A normalised URL: a leading slash, and no trailing slash unless it is the root. */
  predicate IsNormal(u: string)
  {
    |u| > 0 && u[0] == '/' && (u == "/" || u[|u| - 1] != '/')
  }

  /**
   * `normalizeUrl`: "/" stays; otherwise one trailing slash is cut and a
   * leading slash is added when missing.
   */
  function NormalizeUrl(p: string): (r: string)
    ensures |r| > 0 && r[0] == '/'
  {
    if p == "/" then p
    else
      var q := if |p| > 0 && p[|p| - 1] == '/' then p[..|p| - 1] else p;
      if |q| > 0 && q[0] == '/' then q else "/" + q
  }

  /** A URL is left alone exactly when it is already normal. */
  lemma {:induction false} NormalizeUrlFixpoint(p: string)
    ensures NormalizeUrl(p) == p <==> IsNormal(p)
  {
    if p != "/" && |p| > 0 && p[|p| - 1] == '/' {
      var q := p[..|p| - 1];
      if |q| > 0 && q[0] == '/' {
        assert |NormalizeUrl(p)| < |p|;
      } else {
        assert |q| > 0 && q[0] == p[0] != '/';
      }
    }
  }

  /** Only one trailing slash is cut: a URL ending in "//" does not come out normal. */
  lemma {:induction false} NormalizeUrlNormal(p: string)
    ensures IsNormal(NormalizeUrl(p)) <==> !(|p| >= 2 && p[|p| - 2..] == "//" && p != "//")
  {
    if |p| >= 2 && p[|p| - 2..] == "//" && p != "//" {
      var r := NormalizeUrl(p);
      assert p[|p| - 2] == '/' && p[|p| - 1] == '/';
      assert r[|r| - 1] == '/';
    }
  }

  /** The trailing slash does not matter: "v1/" and "v1" name the same trigger. */
  lemma {:induction false} NormalizeUrlTrailingSlash(p: string)
    requires p == [] || p[|p| - 1] != '/'
    ensures NormalizeUrl(p + "/") == NormalizeUrl(p)
  {
    if p != [] { assert (p + "/")[..|p|] == p; }
  }

  /** Normalising twice can differ from normalising once. */
  lemma {:induction false} NormalizeUrlNotIdempotent()
    ensures NormalizeUrl("/a//") == "/a/"
    ensures NormalizeUrl(NormalizeUrl("/a//")) == "/a"
  {
  }

  /** `preg_replace('/([a-z])([A-Z])/', '$1-$2', ...)`: a dash between each lower/upper pair. */
  function InsertDashes(s: string): (r: string)
  {
    if |s| < 2 then s
    else if IsLower(s[0]) && IsUpper(s[1]) then [s[0], '-'] + InsertDashes(s[1..])
    else [s[0]] + InsertDashes(s[1..])
  }

  /** `camelCase2Dashes`: "MethodWithoutPhpDoc" becomes "method-without-php-doc". */
  function CamelCase2Dashes(s: string): (r: string)
    ensures forall i :: 0 <= i < |r| ==> !IsUpper(r[i])
  {
    Lower(InsertDashes(s))
  }

  /** The text without its dashes. */
  function Undashed(s: string): string
  {
    if s == [] then [] else (if s[0] == '-' then [] else [s[0]]) + Undashed(s[1..])
  }

  /** Number of positions where a lower-case letter is followed by an upper-case one. */
  function Humps(s: string): nat
  {
    if |s| < 2 then 0 else (if IsLower(s[0]) && IsUpper(s[1]) then 1 else 0) + Humps(s[1..])
  }

  lemma {:induction false} LowerAppend(a: string, b: string)
    ensures Lower(a + b) == Lower(a) + Lower(b)
  {
    assert forall i :: 0 <= i < |a + b| ==> Lower(a + b)[i] == (Lower(a) + Lower(b))[i];
  }

  lemma {:induction false} UndashedLower(s: string)
    ensures Undashed(Lower(s)) == Lower(Undashed(s))
  {
    if s != [] {
      var head := if s[0] == '-' then [] else [s[0]];
      var l := Lower(s);
      assert l[1..] == Lower(s[1..]);
      assert Undashed(l) == Lower(head) + Undashed(Lower(s[1..]));
      UndashedLower(s[1..]);
      LowerAppend(head, Undashed(s[1..]));
    }
  }

  lemma {:induction false} InsertDashesFacts(s: string)
    ensures Undashed(InsertDashes(s)) == Undashed(s)
    ensures |InsertDashes(s)| == |s| + Humps(s)
    ensures |s| > 0 ==> |InsertDashes(s)| > 0 && InsertDashes(s)[0] == s[0]
  {
    if |s| >= 2 {
      InsertDashesFacts(s[1..]);
      var t := InsertDashes(s[1..]);
      if IsLower(s[0]) && IsUpper(s[1]) {
        assert ([s[0], '-'] + t)[1..] == ['-'] + t;
        assert Undashed(['-'] + t) == Undashed(t);
      } else {
        assert ([s[0]] + t)[1..] == t;
      }
    } else if |s| == 1 {
      assert s[1..] == [];
    }
  }

  lemma {:induction false} InsertDashesSeparates(s: string)
    ensures forall i :: 0 <= i < |InsertDashes(s)| - 1 ==> !(IsLower(InsertDashes(s)[i]) && IsUpper(InsertDashes(s)[i + 1]))
  {
    if |s| >= 2 {
      InsertDashesSeparates(s[1..]);
      InsertDashesFacts(s[1..]);
    }
  }

  /**
   * `camelCase2Dashes` only inserts dashes (and lower-cases): one per
   * lower/upper pair of the input, and none is left unseparated.
   */
  lemma {:induction false} CamelCase2DashesSpec(s: string)
    ensures Undashed(CamelCase2Dashes(s)) == Lower(Undashed(s))
    ensures |CamelCase2Dashes(s)| == |s| + Humps(s)
    ensures forall i :: 0 <= i < |InsertDashes(s)| - 1 ==> !(IsLower(InsertDashes(s)[i]) && IsUpper(InsertDashes(s)[i + 1]))
  {
    InsertDashesFacts(s);
    UndashedLower(InsertDashes(s));
    InsertDashesSeparates(s);
  }

  /** The parameter naming convention `argumentName` undoes: a lower-case letter then an upper-case one. */
  predicate HasTypePrefix(p: string)
  {
    |p| >= 2 && IsLower(p[0]) && IsUpper(p[1])
  }

  /**
   * `argumentName`: "pUsername" is bound to the request field "username";
   * other names are used as they are.
   */
  function ArgumentName(p: string): (r: string)
  {
    if HasTypePrefix(p) then [ToLowerChar(p[1])] + p[2..] else p
  }

  /** A name is changed exactly when it carries the one-letter prefix. */
  lemma {:induction false} ArgumentNameChanges(p: string)
    ensures ArgumentName(p) != p <==> HasTypePrefix(p)
    ensures HasTypePrefix(p) ==> |ArgumentName(p)| == |p| - 1
  {
  }

  /** Prefixing a lower-case name with a letter and capitalising it is undone by `argumentName`. */
  lemma {:induction false} ArgumentNameStripsPrefix(x: char, name: string)
    requires IsLower(x) && |name| > 0 && IsLower(name[0])
    ensures ArgumentName([x, ToUpperChar(name[0])] + name[1..]) == name
  {
    var p := [x, ToUpperChar(name[0])] + name[1..];
    assert p[2..] == name[1..];
    assert ToLowerChar(ToUpperChar(name[0])) == name[0];
  }
}
