/**
 * The JSON encoder's pretty-printer `jsonFormat` (src/Encoder/JSON.php):
 * one pass over the already encoded text that tracks the indent depth,
 * whether the scan is outside a quoted string, and whether the previous
 * character was an unconsumed backslash; it inserts line breaks, 4-space
 * indents and the space after a colon, and nothing else.
 */
module Json {
  import opened Php

  const Indent: string := "    "

  /** The scanner state of `jsonFormat`: `$pos`, `$inEscapeMode`, `$outOfQuotes`. */
  datatype Scanner = Scanner(pos: int, esc: bool, outQ: bool)

  const Start := Scanner(0, false, true)

  predicate IsCloser(c: char) { c == '}' || c == ']' }
  predicate IsOpener(c: char) { c == '{' || c == '[' }
  predicate IsLayout(c: char) { c == ' ' || c == '\n' }

  /** How one input character moves the scanner. */
  function Next(st: Scanner, c: char): Scanner
  {
    var pos :=
      if c == '"' && !st.esc then st.pos
      else if IsCloser(c) && st.outQ then st.pos - 1
      else if IsOpener(c) && st.outQ then st.pos + 1
      else st.pos;
    Scanner(pos,
            c == '\\' && !st.esc,
            if c == '"' && !st.esc then !st.outQ else st.outQ)
  }

  /** The scanner state after a prefix of the input. */
  function Scan(s: string): Scanner
  {
    if s == [] then Start else Next(Scan(s[..|s| - 1]), s[|s| - 1])
  }

  /**
   * The text written for one input character, or None where `str_repeat`
   * is asked for a negative count (a ValueError in PHP 8): a closing
   * bracket outside quotes at depth 0.
   */
  function Emit(st: Scanner, c: char): Option<string>
  {
    if c == '"' && !st.esc then Some([c])
    else if IsCloser(c) && st.outQ then
      if st.pos - 1 < 0 then None else Some("\n" + Repeat(Indent, st.pos - 1) + [c])
    else if c == ':' && st.outQ then Some(": ")
    else if c == ',' && st.outQ then
      if st.pos < 0 then None else Some([c] + "\n" + Repeat(Indent, st.pos))
    else if IsOpener(c) && st.outQ then
      if st.pos + 1 < 0 then None else Some([c] + "\n" + Repeat(Indent, st.pos + 1))
    else Some([c])
  }

  /** The formatted text of `s`, character by character. */
  function Formatted(s: string): Option<string>
  {
    if s == [] then Some("")
    else match Formatted(s[..|s| - 1])
      case None => None
      case Some(o) =>
        match Emit(Scan(s[..|s| - 1]), s[|s| - 1])
        case None => None
        case Some(e) => Some(o + e)
  }

  /**
   * One iteration of the `for` loop of `jsonFormat`: what the character
   * appends to `$result` (None where `str_repeat` would throw) and the new
   * scanner state.
   */
  method FormatChar(c: char, st: Scanner) returns (step: Option<string>, st': Scanner)
    ensures step == Emit(st, c)
    ensures st' == Next(st, c)
  {
    var pos := st.pos;
    var outOfQuotes := st.outQ;
    var text: string := [];
    var chunk: string := [c];
    if c == '"' && !st.esc {
      outOfQuotes := !outOfQuotes;
    } else if (c == '}' || c == ']') && outOfQuotes {
      text := text + "\n";
      pos := pos - 1;
      if pos < 0 {
        return None, Next(st, c);
      }
      text := text + Repeat(Indent, pos);
    } else if c == ':' && outOfQuotes {
      chunk := chunk + " ";
    }
    text := text + chunk;
    // `$char` is still the input character here unless it was a colon
    if (c == ',' || c == '{' || c == '[') && outOfQuotes {
      text := text + "\n";
      if c == '{' || c == '[' {
        pos := pos + 1;
      }
      if pos < 0 {
        return None, Next(st, c);
      }
      text := text + Repeat(Indent, pos);
    }
    if c == '"' && !st.esc {
      assert text == [c];
    } else if IsCloser(c) && st.outQ {
      assert text == "\n" + Repeat(Indent, st.pos - 1) + [c];
    } else if c == ':' && st.outQ {
      assert text == ": ";
    } else if (c == ',' || IsOpener(c)) && st.outQ {
      assert text == [c] + "\n" + Repeat(Indent, pos);
    } else {
      assert text == [c];
    }
    return Some(text), Scanner(pos, c == '\\' && !st.esc, outOfQuotes);
  }

  /**
   * `jsonFormat` on string input. The loop of the source also runs once
   * with `$i == strlen($json)`, where `substr` yields "" and nothing is
   * written; the model stops one step earlier.
   */
  method JsonFormat(json: string) returns (r: Option<string>)
    ensures r == Formatted(json)
  {
    var result := "";
    var st := Start;
    var i := 0;
    while i < |json|
      invariant 0 <= i <= |json|
      invariant Formatted(json[..i]) == Some(result)
      invariant Scan(json[..i]) == st
    {
      assert json[..i + 1][..i] == json[..i];
      assert json[..i + 1][i] == json[i];
      var step;
      step, st := FormatChar(json[i], st);
      if step.None? {
        FormattedPrefixNone(json, i + 1);
        return None;
      }
      result := result + step.value;
      i := i + 1;
    }
    assert json[..i] == json;
    return Some(result);
  }

  /** Once a prefix fails, the whole input fails. */
  lemma {:induction false} FormattedPrefixNone(s: string, k: nat)
    requires k <= |s| && Formatted(s[..k]).None?
    ensures Formatted(s).None?
    decreases |s| - k
  {
    if k < |s| {
      assert s[..k + 1][..k] == s[..k];
      FormattedPrefixNone(s, k + 1);
    } else {
      assert s[..k] == s;
    }
  }

  /** The depth never drops below zero on any prefix. */
  predicate NeverNegative(s: string)
  {
    forall k :: 0 <= k <= |s| ==> Scan(s[..k]).pos >= 0
  }

  /**
   * Formatting fails exactly when some prefix closes more brackets (outside
   * quotes) than it opened.
   */
  lemma {:induction false} FormatSucceedsIff(s: string)
    ensures Formatted(s).Some? <==> NeverNegative(s)
  {
    if s == [] {
      assert s[..0] == s;
    } else {
      var p := s[..|s| - 1];
      FormatSucceedsIff(p);
      assert forall k :: 0 <= k <= |p| ==> p[..k] == s[..k];
      assert s[..|s|] == s;
      if NeverNegative(s) {
        assert NeverNegative(p) by {
          forall k | 0 <= k <= |p| ensures Scan(p[..k]).pos >= 0 {
            assert p[..k] == s[..k];
          }
        }
        assert Scan(s).pos >= 0;
      }
      if Formatted(s).Some? {
        assert Scan(p).pos >= 0 by { assert p[..|p|] == p; }
        forall k | 0 <= k <= |s| ensures Scan(s[..k]).pos >= 0 {
          if k < |s| { assert s[..k] == p[..k]; }
        }
      }
    }
  }
  /** Opening brackets of `s` outside quoted strings. */
  function Openers(s: string): nat
  {
    if s == [] then 0
    else Openers(s[..|s| - 1]) + (if IsOpener(s[|s| - 1]) && Scan(s[..|s| - 1]).outQ then 1 else 0)
  }

  /** Closing brackets of `s` outside quoted strings. */
  function Closers(s: string): nat
  {
    if s == [] then 0
    else Closers(s[..|s| - 1]) + (if IsCloser(s[|s| - 1]) && Scan(s[..|s| - 1]).outQ then 1 else 0)
  }

  /** The depth `jsonFormat` tracks is the count of open brackets not yet closed. */
  lemma {:induction false} DepthCounts(s: string)
    ensures Scan(s).pos == Openers(s) - Closers(s)
  {
    if s != [] {
      DepthCounts(s[..|s| - 1]);
    }
  }

  /** Input whose brackets outside strings are balanced ends at depth 0, and is formatted when no prefix over-closes. */
  lemma {:induction false} BalancedEndsAtZero(s: string)
    requires Openers(s) == Closers(s)
    ensures Scan(s).pos == 0
    ensures NeverNegative(s) ==> Formatted(s).Some?
  {
    DepthCounts(s);
    FormatSucceedsIff(s);
  }


  // ---- The inverse: dropping the layout outside quotes ----

  /** The state of the inverse scan: the text kept so far and the quote/escape state. */
  datatype Unformatter = Unformatter(kept: string, esc: bool, outQ: bool)

  /** Layout outside quotes is dropped; every other character is kept and moves the quote state as in `jsonFormat`. */
  function UnStep(u: Unformatter, c: char): Unformatter
  {
    if u.outQ && IsLayout(c) then u
    else Unformatter(u.kept + [c], c == '\\' && !u.esc, if c == '"' && !u.esc then !u.outQ else u.outQ)
  }

  function UnFrom(u: Unformatter, t: string): Unformatter
  {
    if t == [] then u else UnStep(UnFrom(u, t[..|t| - 1]), t[|t| - 1])
  }

  /** The text with all layout outside string literals removed. */
  function Unformat(t: string): string
  {
    UnFrom(Unformatter("", false, true), t).kept
  }

  lemma {:induction false} UnConcat(u: Unformatter, a: string, b: string)
    ensures UnFrom(u, a + b) == UnFrom(UnFrom(u, a), b)
    decreases |b|
  {
    if b == [] {
      assert a + b == a;
    } else {
      var b' := b[..|b| - 1];
      assert (a + b)[..|a + b| - 1] == a + b';
      UnConcat(u, a, b');
    }
  }

  lemma {:induction false} DropLayout(u: Unformatter, w: string)
    requires u.outQ
    requires forall j :: 0 <= j < |w| ==> IsLayout(w[j])
    ensures UnFrom(u, w) == u
  {
    if w != [] {
      DropLayout(u, w[..|w| - 1]);
    }
  }

  lemma {:induction false} IndentLayout(n: nat)
    ensures forall j :: 0 <= j < |"\n" + Repeat(Indent, n)| ==> IsLayout(("\n" + Repeat(Indent, n))[j])
  {
    var w := "\n" + Repeat(Indent, n);
    forall j | 0 <= j < |w| ensures IsLayout(w[j]) {
      if j > 0 { assert w[j] == Repeat(Indent, n)[j - 1]; }
    }
  }

  /** One character: the inverse scan of what `Emit` wrote keeps exactly that character. */
  lemma {:induction false} EmitUndone(st: Scanner, k: string, c: char, e: string)
    requires Emit(st, c) == Some(e)
    requires !(st.outQ && IsLayout(c))
    ensures UnFrom(Unformatter(k, st.esc, st.outQ), e) == Unformatter(k + [c], Next(st, c).esc, Next(st, c).outQ)
  {
    var u := Unformatter(k, st.esc, st.outQ);
    assert UnFrom(u, [c]) == UnStep(u, c) by { assert [c][..0] == []; }
    if c == '"' && !st.esc {
    } else if IsCloser(c) && st.outQ {
      var w := "\n" + Repeat(Indent, st.pos - 1);
      IndentLayout(st.pos - 1);
      DropLayout(u, w);
      UnConcat(u, w, [c]);
    } else if c == ':' && st.outQ {
      UnConcat(u, [c], " ");
      assert UnFrom(UnStep(u, c), " ") == UnStep(UnStep(u, c), ' ') by { assert " "[..0] == []; }
    } else if (c == ',' || IsOpener(c)) && st.outQ {
      var n := if c == ',' then st.pos else st.pos + 1;
      var w := "\n" + Repeat(Indent, n);
      assert e == [c] + w;
      IndentLayout(n);
      UnConcat(u, [c], w);
      DropLayout(UnStep(u, c), w);
    }
  }

  /** No layout characters outside string literals: the compact form `json_encode` produces. */
  predicate Compact(s: string)
  {
    forall k :: 0 <= k < |s| ==> !(Scan(s[..k]).outQ && IsLayout(s[k]))
  }

  /** A compact text stays compact without its last character, and that character is not layout outside quotes. */
  lemma {:induction false} CompactInit(s: string)
    requires Compact(s) && s != []
    ensures Compact(s[..|s| - 1]) && !(Scan(s[..|s| - 1]).outQ && IsLayout(s[|s| - 1]))
  {
    var p := s[..|s| - 1];
    forall k | 0 <= k < |p| ensures !(Scan(p[..k]).outQ && IsLayout(p[k])) {
      assert p[..k] == s[..k];
    }
  }

  /** One more input character: the inverse scan of its output extends the kept text by that character. */
  lemma {:induction false} UnformatStep(s: string, o: string, e: string)
    requires s != []
    requires UnFrom(Unformatter("", false, true), o) == Unformatter(s[..|s| - 1], Scan(s[..|s| - 1]).esc, Scan(s[..|s| - 1]).outQ)
    requires Emit(Scan(s[..|s| - 1]), s[|s| - 1]) == Some(e)
    requires !(Scan(s[..|s| - 1]).outQ && IsLayout(s[|s| - 1]))
    ensures UnFrom(Unformatter("", false, true), o + e) == Unformatter(s, Scan(s).esc, Scan(s).outQ)
  {
    var p := s[..|s| - 1];
    var c := s[|s| - 1];
    UnConcat(Unformatter("", false, true), o, e);
    EmitUndone(Scan(p), p, c, e);
    assert p + [c] == s;
  }

  lemma {:induction false} UnformatFormatted(s: string)
    requires Compact(s) && Formatted(s).Some?
    ensures UnFrom(Unformatter("", false, true), Formatted(s).value) == Unformatter(s, Scan(s).esc, Scan(s).outQ)
  {
    if s != [] {
      var p := s[..|s| - 1];
      CompactInit(s);
      UnformatFormatted(p);
      var o := Formatted(p).value;
      var e := Emit(Scan(p), s[|s| - 1]).value;
      assert Formatted(s).value == o + e;
      UnformatStep(s, o, e);
    }
  }

  /**
   * Pretty-printing only adds layout: removing the layout outside string
   * literals gives back the compact input, so every input character is
   * copied, in order, and quoted text is left untouched.
   */
  lemma {:induction false} FormatRoundTrip(s: string)
    requires Compact(s) && NeverNegative(s)
    ensures Formatted(s).Some? && Unformat(Formatted(s).value) == s
  {
    FormatSucceedsIff(s);
    UnformatFormatted(s);
  }
}
