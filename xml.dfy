/**
 * The XML encoder (src/Encoder/XML.php): a recursive writer that renders an
 * ordered array as one element per entry, indented two spaces per level,
 * with numeric keys renamed `<parent>-item`, and escapes text with
 * `htmlspecialchars`.
 *
 * The file declares `strict_types=1`, so `htmlspecialchars` accepts only
 * strings: `ToXmlAsWritten` keeps that (a non-string leaf is a TypeError),
 * and `ToXml` is the rendering evidently meant, with PHP's usual string
 * conversion of scalars.
 */
module Xml {
  import opened Php

  // ---- htmlspecialchars (ENT_QUOTES, the default flags since PHP 8.1) ----

  function EscapeChar(c: char): string
  {
    if c == '&' then "&amp;"
    else if c == '<' then "&lt;"
    else if c == '>' then "&gt;"
    else if c == '"' then "&quot;"
    else if c == '\'' then "&#039;"
    else [c]
  }

  /** `htmlspecialchars`: the five markup characters become entities. */
  function HtmlSpecialChars(s: string): (r: string)
    ensures forall i :: 0 <= i < |r| ==> r[i] !in "<>\"'"
  {
    if s == [] then [] else EscapeChar(s[0]) + HtmlSpecialChars(s[1..])
  }

  predicate IsPrefix(p: string, t: string)
  {
    |p| <= |t| && t[..|p|] == p
  }

  /** The entity `htmlspecialchars` writes at the start of `t`, with its length. */
  function EntityAt(t: string): (r: Option<(char, nat)>)
    ensures r.Some? ==> 0 < r.value.1 <= |t|
  {
    if IsPrefix("&amp;", t) then Some(('&', 5))
    else if IsPrefix("&lt;", t) then Some(('<', 4))
    else if IsPrefix("&gt;", t) then Some(('>', 4))
    else if IsPrefix("&quot;", t) then Some(('"', 6))
    else if IsPrefix("&#039;", t) then Some(('\'', 6))
    else None
  }

  /** `htmlspecialchars_decode` with the same flags. */
  function Unescape(t: string): string
  {
    if t == [] then []
    else match EntityAt(t)
      case Some((c, n)) => [c] + Unescape(t[n..])
      case None => [t[0]] + Unescape(t[1..])
  }

  lemma {:induction false} EntityOfEscape(c: char, rest: string)
    ensures EntityAt(EscapeChar(c) + rest) == if |EscapeChar(c)| == 1 then None else Some((c, |EscapeChar(c)|))
  {
    var t := EscapeChar(c) + rest;
    var n := |EscapeChar(c)|;
    assert t[..n] == EscapeChar(c);
    if n == 1 {
      assert t[0] == c != '&';
    } else {
      assert t[1] == EscapeChar(c)[1];
    }
  }

  /** Decoding the escape of one character gives that character back, then decodes the rest. */
  lemma {:induction false} UnescapeCons(c: char, rest: string)
    ensures Unescape(EscapeChar(c) + rest) == [c] + Unescape(rest)
  {
    var t := EscapeChar(c) + rest;
    var n := |EscapeChar(c)|;
    EntityOfEscape(c, rest);
    assert t[n..] == rest;
    if n == 1 {
      assert t[0] == c;
    }
  }

  /** Escaping loses nothing: decoding gives back the text. */
  lemma {:induction false} UnescapeEscape(s: string)
    ensures Unescape(HtmlSpecialChars(s)) == s
  {
    if s != [] {
      assert HtmlSpecialChars(s) == EscapeChar(s[0]) + HtmlSpecialChars(s[1..]);
      UnescapeCons(s[0], HtmlSpecialChars(s[1..]));
      UnescapeEscape(s[1..]);
      assert s == [s[0]] + s[1..];
    }
  }

  // ---- is_numeric ----

  function Digits(s: string): nat { Span(s, IsDigit) }

  /** A decimal number without sign: digits, optionally a point and more digits (at least one digit in all). */
  predicate IsDecimal(s: string)
  {
    var a := Digits(s);
    if a == |s| then a > 0
    else s[a] == '.' && a + 1 + Digits(s[a + 1..]) == |s| && a + Digits(s[a + 1..]) > 0
  }

  /** A mantissa with an optional exponent `e`/`E`, signed or not. */
  predicate IsUnsignedNumber(s: string)
  {
    exists k :: 0 <= k <= |s| && IsDecimal(s[..k]) &&
      (k == |s| ||
       (s[k] in "eE" &&
        var e := s[k + 1..];
        var d := if e != [] && e[0] in "+-" then e[1..] else e;
        d != [] && Digits(d) == |d|))
  }

  /**
   * `is_numeric` on a string (PHP 8): optional surrounding whitespace, an
   * optional sign, then a decimal number with an optional exponent.
   */
  predicate IsNumeric(s: string)
  {
    var t := s[Span(s, IsSpace)..];
    var u := t[..|t| - SpanBack(t, IsSpace)];
    var v := if u != [] && u[0] in "+-" then u[1..] else u;
    IsUnsignedNumber(v)
  }

  /** `is_numeric($key)`: integer keys always are. */
  predicate IsNumericKey(k: Key)
  {
    k.KInt? || IsNumeric(k.s)
  }

  /** The tag an entry is written under. */
  function TagName(k: Key, parent: string): string
  {
    if IsNumericKey(k) then parent + "-item" else k.s
  }

  /** Text with no blank at either end and no sign is numeric exactly when it is an unsigned number. */
  lemma {:induction false} NumericPlain(s: string)
    requires s != [] && !IsSpace(s[0]) && !IsSpace(s[|s| - 1]) && s[0] != '+' && s[0] != '-'
    ensures IsNumeric(s) <==> IsUnsignedNumber(s)
  {
    var t := s[Span(s, IsSpace)..];
    assert t == s;
    var u := t[..|t| - SpanBack(t, IsSpace)];
    assert u == s;
    assert s[0] !in "+-";
  }

  lemma {:induction false} DecimalUnsigned(s: string)
    requires IsDecimal(s)
    ensures IsUnsignedNumber(s)
  {
    assert s[..|s|] == s;
  }

  lemma {:induction false} ExponentUnsigned(s: string, k: nat)
    requires k < |s| && IsDecimal(s[..k]) && (s[k] == 'e' || s[k] == 'E')
    requires var d := s[k + 1..]; d != [] && Digits(d) == |d|
    ensures IsUnsignedNumber(s)
  {
  }

  /** A number with a fraction is numeric. */
  lemma {:induction false} NumericFraction()
    ensures IsNumeric("1.5")
  {
    var x := "1.5";
    assert x[1..] == ".5" && x[2..] == "5";
    assert Digits("5") == 1 by { assert "5"[1..] == []; }
    assert IsDecimal(x);
    DecimalUnsigned(x);
    NumericPlain(x);
  }

  /** Nothing is needed after the point. */
  lemma {:induction false} NumericTrailingPoint()
    ensures IsNumeric("5.")
  {
    var x := "5.";
    assert x[1..] == "." && x[2..] == [];
    assert IsDecimal(x);
    DecimalUnsigned(x);
    NumericPlain(x);
  }

  /** Nothing is needed before the point. */
  lemma {:induction false} NumericLeadingPoint()
    ensures IsNumeric(".5")
  {
    var x := ".5";
    assert x[1..] == "5";
    assert Digits("5") == 1 by { assert "5"[1..] == []; }
    assert IsDecimal(x);
    DecimalUnsigned(x);
    NumericPlain(x);
  }

  lemma {:induction false} NumericOne()
    ensures IsUnsignedNumber("1")
  {
    assert IsDecimal("1") by { assert "1"[1..] == []; }
    DecimalUnsigned("1");
  }

  /** A leading blank is allowed. */
  lemma {:induction false} NumericLeadingBlank()
    ensures IsNumeric(" 1")
  {
    NumericOne();
    var x := " 1";
    assert Span(x, IsSpace) == 1 by { assert x[1..] == "1"; }
    assert x[1..] == "1" && "1"[..1] == "1";
  }

  /** A trailing blank is allowed. */
  lemma {:induction false} NumericTrailingBlank()
    ensures IsNumeric("1 ")
  {
    NumericOne();
    var x := "1 ";
    assert SpanBack(x, IsSpace) == 1 by { assert x[..1] == "1"; }
    assert x[0..] == x && x[..1] == "1";
  }

  /** A trailing form feed is a blank too. */
  lemma {:induction false} NumericTrailingFormFeed()
    ensures IsNumeric("1\U{C}")
  {
    NumericOne();
    var x := "1\U{C}";
    assert SpanBack(x, IsSpace) == 1 by { assert x[..1] == "1"; }
    assert x[0..] == x && x[..1] == "1";
  }

  /** A sign is allowed. */
  lemma {:induction false} NumericSigned()
    ensures IsNumeric("-5")
  {
    assert IsDecimal("5") by { assert "5"[1..] == []; }
    DecimalUnsigned("5");
    var x := "-5";
    assert x[0..] == x && x[..2] == x && x[1..] == "5";
  }

  /** An exponent is allowed. */
  lemma {:induction false} NumericExponent()
    ensures IsNumeric("1e3")
  {
    var x := "1e3";
    assert IsDecimal("1") by { assert "1"[1..] == []; }
    assert x[..1] == "1" && x[2..] == "3";
    assert Digits("3") == 1 by { assert "3"[1..] == []; }
    ExponentUnsigned(x, 1);
    NumericPlain(x);
  }

  /** The empty string and a bare point are not numeric. */
  lemma {:induction false} NotNumericEmpty()
    ensures !IsNumeric("") && !IsNumeric(".")
  {
    assert ""[0..] == "" && ""[..0] == "";
    assert !IsUnsignedNumber("");
    assert "."[1..] == [] && "."[..0] == [] && "."[..1] == ".";
    assert !IsDecimal(".");
    NumericPlain(".");
  }

  /** A dangling exponent is not numeric. */
  lemma {:induction false} NotNumericExponent()
    ensures !IsNumeric("1e")
  {
    assert "1e"[..0] == [] && "1e"[..1] == "1" && "1e"[..2] == "1e" && "1e"[2..] == [];
    assert Digits("1e") == 1 by { assert "1e"[1..] == "e"; }
    assert !IsDecimal("1e");
    NumericPlain("1e");
  }

  /** The digit run of a prefix is the prefix's share of the digit run of the whole. */
  lemma {:induction false} DigitsOfPrefix(s: string, k: nat)
    requires k <= |s|
    ensures Digits(s[..k]) == if k < Digits(s) then k else Digits(s)
  {
    if k > 0 && IsDigit(s[0]) {
      DigitsOfPrefix(s[1..], k - 1);
      assert s[..k][1..] == s[1..][..k - 1];
    }
  }

  /**
   * Text whose leading digits are followed by anything but a point or an
   * exponent mark is not a number: no prefix is a decimal that the rest
   * extends.
   */
  lemma {:induction false} NotUnsignedAt(s: string)
    requires Digits(s) < |s| && s[Digits(s)] != '.' && s[Digits(s)] != 'e' && s[Digits(s)] != 'E'
    ensures !IsUnsignedNumber(s)
  {
    var j := Digits(s);
    SpanPrefix(s, IsDigit);
    forall k | 0 <= k <= |s| && IsDecimal(s[..k])
      ensures k < |s| && s[k] != 'e' && s[k] != 'E'
    {
      DigitsOfPrefix(s, k);
      if k > j {
        assert false;
      }
    }
  }

  /** A letter is not numeric. */
  lemma {:induction false} NotNumericLetter()
    ensures !IsNumeric("a1")
  {
    NotUnsignedAt("a1");
    NumericPlain("a1");
  }

  /** Hexadecimal is not numeric. */
  lemma {:induction false} NotNumericHex()
    ensures !IsNumeric("0x1A")
  {
    var x := "0x1A";
    assert Digits(x) == 1 by { assert x[1..] == "x1A"; }
    NotUnsignedAt(x);
    NumericPlain(x);
  }

  /** A trailing NUL is not a blank for `is_numeric` (unlike for `trim`). */
  lemma {:induction false} NotNumericNul()
    ensures !IsNumeric("1\0")
  {
    var x := "1\0";
    assert Digits(x) == 1 by { assert x[1..] == "\0"; }
    NotUnsignedAt(x);
    NumericPlain(x);
  }


  /** A non-empty run of decimal digits is numeric. */
  lemma {:induction false} DigitsNumeric(s: string)
    requires s != [] && forall i :: 0 <= i < |s| ==> IsDigit(s[i])
    ensures IsNumeric(s)
  {
    DigitsSpan(s);
    assert IsDecimal(s);
    DecimalUnsigned(s);
    NumericPlain(s);
  }

  lemma {:induction false} DigitsSpan(s: string)
    requires forall i :: 0 <= i < |s| ==> IsDigit(s[i])
    ensures Digits(s) == |s|
  {
    if s != [] {
      DigitsSpan(s[1..]);
    }
  }

  /** Integer keys are numeric, so a PHP list is written as a run of `<parent-item>` elements. */
  lemma {:induction false} ListWrittenAsItems(xs: seq<Value>, parent: string, depth: nat)
    ensures ToXml(List(xs), parent, depth) == ItemElements(xs, parent + "-item", depth)
  {
    ListElements(xs, |xs|, parent, depth);
    assert xs[..|xs|] == xs;
  }

  /** The elements of the items `xs`, all under the tag `tag`, in order. */
  function ItemElements(xs: seq<Value>, tag: string, depth: nat): string
  {
    if xs == [] then "" else ItemElements(xs[..|xs| - 1], tag, depth) + Element(tag, ToXml(xs[|xs| - 1], tag, depth + 1), depth)
  }

  lemma {:induction false} ListElements(xs: seq<Value>, n: nat, parent: string, depth: nat)
    requires n <= |xs|
    ensures Elements(List(xs), n, parent, depth) == ItemElements(xs[..n], parent + "-item", depth)
  {
    if n > 0 {
      ListElements(xs, n - 1, parent, depth);
      var l := List(xs);
      assert l.entries[n - 1] == (KInt(n - 1), xs[n - 1]);
      assert TagName(KInt(n - 1), parent) == parent + "-item";
      assert xs[..n][..n - 1] == xs[..n - 1];
    }
  }

  /** The text PHP gives a scalar in a string context. */
  function Stringify(v: Value): string
    requires !v.Arr?
  {
    match v
    case Null => ""
    case Bool(b) => if b then "1" else ""
    case Int(i) => IntToString(i)
    case Str(s) => s
  }

  // ---- toXml as written: htmlspecialchars refuses non-strings ----

  /** `toXml`; None is the TypeError `htmlspecialchars` raises on a non-string leaf under strict types. */
  function ToXmlAsWritten(v: Value, parent: string, depth: nat): Option<string>
    decreases v, 1
  {
    match v
    case Arr(es) => ElementsAsWritten(v, |es|, parent, depth)
    case Str(s) => Some(HtmlSpecialChars(s))
    case _ => None
  }

  /** The `foreach` of `toXml` over the first `n` entries of the array `a`, in order. */
  function ElementsAsWritten(a: Value, n: nat, parent: string, depth: nat): Option<string>
    requires a.Arr? && n <= |a.entries|
    decreases a, 0, n
  {
    if n == 0 then Some("")
    else
      var e := a.entries[n - 1];
      assert e in a.entries;
      var (k, v) := (e.0, e.1);
      var tag := TagName(k, parent);
      match ElementsAsWritten(a, n - 1, parent, depth)
      case None => None
      case Some(prefix) =>
        match ToXmlAsWritten(v, tag, depth + 1)
        case None => None
        case Some(inner) => Some(prefix + Element(tag, inner, depth))
  }

  /** One entry: the indent, the opening tag, the content, the closing tag and a newline. */
  function Element(tag: string, inner: string, depth: nat): string
  {
    Repeat("  ", depth) + "<" + HtmlSpecialChars(tag) + ">" + inner + "</" + HtmlSpecialChars(tag) + ">\n"
  }

  // ---- toXml as meant: scalars converted to text first ----

  function ToXml(v: Value, parent: string, depth: nat): string
    decreases v, 1
  {
    match v
    case Arr(es) => Elements(v, |es|, parent, depth)
    case _ => HtmlSpecialChars(Stringify(v))
  }

  function Elements(a: Value, n: nat, parent: string, depth: nat): string
    requires a.Arr? && n <= |a.entries|
    decreases a, 0, n
  {
    if n == 0 then ""
    else
      var e := a.entries[n - 1];
      assert e in a.entries;
      var (k, v) := (e.0, e.1);
      var tag := TagName(k, parent);
      Elements(a, n - 1, parent, depth) + Element(tag, ToXml(v, tag, depth + 1), depth)
  }

  /** Some leaf of the tree is a scalar other than a string. */
  predicate HasNonStringLeaf(v: Value)
    decreases v, 1
  {
    match v
    case Arr(es) => SomeNonStringLeaf(v, |es|)
    case Str(_) => false
    case _ => true
  }

  predicate SomeNonStringLeaf(a: Value, n: nat)
    requires a.Arr? && n <= |a.entries|
    decreases a, 0, n
  {
    n > 0 &&
      assert a.entries[n - 1] in a.entries;
      (SomeNonStringLeaf(a, n - 1) || HasNonStringLeaf(a.entries[n - 1].1))
  }

  /**
   * The writer as written fails exactly on trees holding an integer, a
   * boolean or a null, and on all other trees it writes what the corrected
   * writer writes.
   */
  lemma {:induction false} AsWrittenAgrees(v: Value, parent: string, depth: nat)
    ensures ToXmlAsWritten(v, parent, depth).None? <==> HasNonStringLeaf(v)
    ensures !HasNonStringLeaf(v) ==> ToXmlAsWritten(v, parent, depth) == Some(ToXml(v, parent, depth))
    decreases v, 1
  {
    if v.Arr? {
      ElementsAgree(v, |v.entries|, parent, depth);
    }
  }

  lemma {:induction false} ElementsAgree(a: Value, n: nat, parent: string, depth: nat)
    requires a.Arr? && n <= |a.entries|
    ensures ElementsAsWritten(a, n, parent, depth).None? <==> SomeNonStringLeaf(a, n)
    ensures !SomeNonStringLeaf(a, n) ==> ElementsAsWritten(a, n, parent, depth) == Some(Elements(a, n, parent, depth))
    decreases a, 0, n
  {
    if n > 0 {
      var e := a.entries[n - 1];
      assert e in a.entries;
      ElementsAgree(a, n - 1, parent, depth);
      AsWrittenAgrees(e.1, TagName(e.0, parent), depth + 1);
    }
  }

  const Prolog: string := "<?xml version=\"1.0\"?>\n<response>\n"
  const Epilog: string := "</response>\n"

  /** `export` as written. */
  function ExportAsWritten(msg: Value): (r: Option<string>)
    ensures r.Some? <==> !HasNonStringLeaf(msg)
  {
    AsWrittenAgrees(msg, "", 1);
    match ToXmlAsWritten(msg, "", 1)
    case None => None
    case Some(x) => Some(Prolog + x + Epilog)
  }

  /** `export` as meant: the document wrapped in `<response>`. */
  function Export(msg: Value): (r: string)
    ensures !HasNonStringLeaf(msg) ==> ExportAsWritten(msg) == Some(r)
  {
    AsWrittenAgrees(msg, "", 1);
    Prolog + ToXml(msg, "", 1) + Epilog
  }

  /**
   * Every envelope the clients encode carries the integer `status`, so the
   * writer as written throws on all of them.
   */
  lemma {:induction false} EnvelopeNotExportable(es: seq<(Key, Value)>, i: nat)
    requires i < |es| && es[i].1.Int?
    ensures ExportAsWritten(Arr(es)).None?
  {
    NonStringLeafIn(Arr(es), |es|, i);
  }

  lemma {:induction false} NonStringLeafIn(a: Value, n: nat, i: nat)
    requires a.Arr? && i < n <= |a.entries| && !a.entries[i].1.Arr? && !a.entries[i].1.Str?
    ensures SomeNonStringLeaf(a, n)
  {
    if i < n - 1 {
      NonStringLeafIn(a, n - 1, i);
    }
  }

  /**
   * Scalars are written as their text, escaped: a 64-bit integer reads back
   * as itself, a larger one as its nearest bound (0 past a double).
   */
  lemma {:induction false} ScalarRoundTrip(i: int, parent: string, depth: nat)
    ensures IntVal(Unescape(ToXml(Int(i), parent, depth))) == ToLong(i < 0, Abs(i))
    ensures PhpIntMin <= i <= PhpIntMax ==> IntVal(Unescape(ToXml(Int(i), parent, depth))) == i
  {
    UnescapeEscape(IntToString(i));
    IntValOfText(i);
  }
}
