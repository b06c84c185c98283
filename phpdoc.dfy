/**
 * The docblock reader `Abigail\Kernel\PhpDoc`: `scan` finds the comment
 * above a declaration, `parse` turns it into tags, and `fill` shapes the
 * tags and the declared parameters into the metadata record the router and
 * the description document use.
 */
module PhpDoc {
  import opened Php
  import opened Utils
  import opened Model

  // ---------------------------------------------------------------------------
  // scan

  /** The characters `[a-zA-Z_&\s]` that may precede the `$`, `{` or `}` of a code line. */
  predicate IsCodeLead(c: char)
  {
    IsAlpha(c) || c == '_' || c == '&' || IsSpace(c)
  }

  /** A line that starts with code: words, `&` and blanks, then `$`, `{` or `}`. */
  predicate IsCodeLine(line: string)
  {
    var k := Span(line, IsCodeLead);
    k < |line| && line[k] in "${}"
  }

  predicate OpensComment(line: string) { Contains(line, "/*") }
  predicate ClosesComment(line: string) { Contains(line, "*/") }

  /** The stopping test of the upward walk: a falsy line ends `array_pop`'s loop, a code line means there is no docblock. */
  predicate Stops(line: string)
  {
    !Truthy(line) || IsCodeLine(line)
  }

  /** The line that ends a docblock: not blank (see `TrimEmpty`), holding the comment terminator. */
  predicate EndsBlock(line: string)
  {
    !IsBlank(line) && ClosesComment(line)
  }

  /**
   * Reading upwards from line `k - 1`: the index of the line that ends the
   * comment, found before any line that stops the walk; blank lines and
   * other text are passed over.
   */
  function CommentEnd(lines: seq<string>, k: nat): (r: Option<nat>)
    requires k <= |lines|
    ensures r.Some? ==> r.value < k && EndsBlock(lines[r.value]) && !Stops(lines[r.value])

  {
    if k == 0 then None
    else if Stops(lines[k - 1]) then None
    else if EndsBlock(lines[k - 1]) then Some(k - 1)
    else CommentEnd(lines, k - 1)
  }

  /**
   * Reading upwards from line `k - 1`: the first line of the comment, which
   * is the line that opens it, or the line below a falsy one, or line 0.
   */
  function BlockStart(lines: seq<string>, k: nat): (b: nat)
    requires k <= |lines|
    ensures b <= k
  {
    if k == 0 then 0
    else if !Truthy(lines[k - 1]) then k
    else if OpensComment(lines[k - 1]) then k - 1
    else BlockStart(lines, k - 1)
  }

  /** The lines `lines[i..j]` joined in order. */
  function Concat(lines: seq<string>, i: nat, j: nat): string
    requires i <= j <= |lines|
    decreases j - i
  {
    if i == j then "" else lines[i] + Concat(lines, i + 1, j)
  }

  /**
   * The docblock above a declaration: "" when a line that stops the walk
   * comes before any comment end; otherwise the lines from the one that
   * opens the comment to the one that closes it, in order.
   */
  function DocComment(lines: seq<string>): string
  {
    match CommentEnd(lines, |lines|)
    case None => ""
    case Some(e) =>
      var b := if OpensComment(lines[e]) then e else BlockStart(lines, e);
      Concat(lines, b, e + 1)
  }

  /** The variables of `scan`: `$phpDoc`, `$blockStarted`, and whether the loop has stopped. */
  datatype ScanState = ScanState(doc: string, started: bool, done: bool)

  /** One truthy line popped by `scan`. */
  function ScanStep(st: ScanState, line: string): ScanState
  {
    if st.started then ScanState(line + st.doc, true, OpensComment(line))
    else if IsCodeLine(line) then st.(done := true)
    else if IsBlank(line) then st
    else if ClosesComment(line) then ScanState(line + st.doc, true, OpensComment(line))
    else st
  }

  /** The state of `scan` when the lines `lines[..i]` are left to pop. */
  function Walk(lines: seq<string>, i: nat): ScanState
    requires i <= |lines|
    decreases |lines| - i
  {
    if i == |lines| then ScanState("", false, false)
    else
      var st := Walk(lines, i + 1);
      if st.done then st
      else if !Truthy(lines[i]) then st.(done := true)
      else ScanStep(st, lines[i])
  }

  /** Once the loop has stopped, nothing above changes the result. */
  lemma {:induction false} WalkStays(lines: seq<string>, i: nat)
    requires i <= |lines| && Walk(lines, i).done
    ensures Walk(lines, 0) == Walk(lines, i)
  {
    if i > 0 {
      WalkStays(lines, i - 1);
    }
  }

  /** What the walk knows at each point: how its state relates to the comment end and start. */
  predicate WalkFacts(lines: seq<string>, i: nat, st: ScanState)
    requires i <= |lines|
  {
    var end := CommentEnd(lines, |lines|);
    (!st.started ==> st.doc == "" && (if st.done then end.None? else end == CommentEnd(lines, i))) &&
    (st.started ==> end.Some? && i <= end.value) &&
    (st.started && st.done ==> st.doc == DocComment(lines)) &&
    (st.started && !st.done ==>
       end.Some? && i <= end.value &&
       st.doc == Concat(lines, i, end.value + 1) &&
       !OpensComment(lines[end.value]) &&
       BlockStart(lines, end.value) == BlockStart(lines, i))
  }

  /** A popped line inside the comment: prepended, and the comment starts here if it opens. */
  lemma {:induction false} StepInside(lines: seq<string>, i: nat, st: ScanState)
    requires i < |lines| && WalkFacts(lines, i + 1, st) && st.started && !st.done && Truthy(lines[i])
    ensures WalkFacts(lines, i, ScanStep(st, lines[i]))
  {
    var e := CommentEnd(lines, |lines|).value;
    assert ScanStep(st, lines[i]) == ScanState(lines[i] + st.doc, true, OpensComment(lines[i]));
    assert Concat(lines, i, e + 1) == lines[i] + Concat(lines, i + 1, e + 1);
    if OpensComment(lines[i]) {
      StepOpens(lines, i, e, st.doc);
    } else {
      assert BlockStart(lines, i + 1) == BlockStart(lines, i);
    }
  }

  /** The line that opens the comment completes it. */
  lemma {:induction false} StepOpens(lines: seq<string>, i: nat, e: nat, doc: string)
    requires i <= e < |lines| && Truthy(lines[i]) && OpensComment(lines[i])
    requires CommentEnd(lines, |lines|) == Some(e) && !OpensComment(lines[e])
    requires BlockStart(lines, e) == BlockStart(lines, i + 1)
    requires lines[i] + doc == Concat(lines, i, e + 1)
    ensures lines[i] + doc == DocComment(lines)
  {
    assert BlockStart(lines, i + 1) == i;
    DocCommentBelowOpener(lines, e);
  }

  /** The docblock when its last line does not open it. */
  lemma {:induction false} DocCommentBelowOpener(lines: seq<string>, e: nat)
    requires e < |lines| && CommentEnd(lines, |lines|) == Some(e) && !OpensComment(lines[e])
    ensures DocComment(lines) == Concat(lines, BlockStart(lines, e), e + 1)
  {
  }

  /** A popped line above the comment end: code stops the walk, the terminator starts the comment, others are passed. */
  lemma {:induction false} StepOutside(lines: seq<string>, i: nat, st: ScanState)
    requires i < |lines| && WalkFacts(lines, i + 1, st) && !st.started && !st.done && Truthy(lines[i])
    ensures WalkFacts(lines, i, ScanStep(st, lines[i]))
  {
    var line := lines[i];
    if IsCodeLine(line) {
      assert ScanStep(st, line) == st.(done := true);
      assert CommentEnd(lines, i + 1) == None;
    } else if EndsBlock(line) {
      assert ScanStep(st, line) == ScanState(line + st.doc, true, OpensComment(line));
      StepEnds(lines, i, st);
    } else {
      assert ScanStep(st, line) == st;
      assert CommentEnd(lines, i + 1) == CommentEnd(lines, i);
    }
  }

  /** The line holding the terminator starts the comment. */
  lemma {:induction false} StepEnds(lines: seq<string>, i: nat, st: ScanState)
    requires i < |lines| && WalkFacts(lines, i + 1, st) && !st.started && !st.done
    requires !IsCodeLine(lines[i]) && EndsBlock(lines[i]) && Truthy(lines[i])
    ensures CommentEnd(lines, |lines|) == Some(i)
    ensures Concat(lines, i, i + 1) == lines[i]
  {
    assert CommentEnd(lines, i + 1) == Some(i);
  }

  /** A falsy line ends the walk. */
  lemma {:induction false} StepFalsy(lines: seq<string>, i: nat, st: ScanState)
    requires i < |lines| && WalkFacts(lines, i + 1, st) && !st.done && !Truthy(lines[i])
    ensures WalkFacts(lines, i, st.(done := true))
  {
    if st.started {
      assert BlockStart(lines, i + 1) == i + 1;
    } else {
      assert CommentEnd(lines, i + 1) == None;
    }
  }

  lemma {:induction false} WalkInvariant(lines: seq<string>, i: nat)
    requires i <= |lines|
    ensures WalkFacts(lines, i, Walk(lines, i))
    decreases |lines| - i
  {
    if i < |lines| {
      WalkInvariant(lines, i + 1);
      var st := Walk(lines, i + 1);
      if !st.done {
        if !Truthy(lines[i]) {
          StepFalsy(lines, i, st);
        } else if st.started {
          StepInside(lines, i, st);
        } else {
          StepOutside(lines, i, st);
        }
      }
    }
  }

  /** The walk, run to the top, finds the docblock. */
  lemma {:induction false} ScanFindsDocComment(lines: seq<string>)
    ensures Walk(lines, 0).doc == DocComment(lines)
  {
    WalkInvariant(lines, 0);
  }

  /** `scan`: pops lines from the bottom, collecting the comment block above the declaration. */
  method Scan(lines: seq<string>) returns (phpDoc: string)
    ensures phpDoc == DocComment(lines)
  {
    phpDoc := "";
    var blockStarted := false;
    var done := false;
    var i := |lines|;
    while !done && i > 0 && Truthy(lines[i - 1])
      invariant 0 <= i <= |lines|
      invariant Walk(lines, i) == ScanState(phpDoc, blockStarted, done)
    {
      var line := lines[i - 1];
      i := i - 1;
      if blockStarted {
        phpDoc := line + phpDoc;
        done := OpensComment(line);
      } else if IsCodeLine(line) {
        done := true;
      } else if IsBlank(line) {
        // `trim($line) === ''` (see `TrimEmpty`): the line is skipped
      } else if ClosesComment(line) {
        phpDoc := line + phpDoc;
        blockStarted := true;
        done := OpensComment(line);
      }
    }
    if !done && i > 0 {
      assert Walk(lines, i - 1).done;
      WalkStays(lines, i - 1);
    } else if done {
      WalkStays(lines, i);
    }
    ScanFindsDocComment(lines);
  }

  // ---------------------------------------------------------------------------
  // parse: the comment body and its starred lines

  /**
   * Below `k`: the last position, at index 3 or later, where the comment
   * terminator starts (what the greedy `(.*)` of the pattern backs off to).
   */
  function LastClose(t: string, k: nat): (r: Option<nat>)
    requires k <= |t|
    ensures r.Some? ==> 3 <= r.value && r.value + 2 <= k && t[r.value] == '*' && t[r.value + 1] == '/'
    ensures r.None? ==> forall j :: 3 <= j && j + 2 <= k ==> !(t[j] == '*' && t[j + 1] == '/')
  {
    if k < 5 then None
    else if t[k - 2] == '*' && t[k - 1] == '/' then Some(k - 2)
    else LastClose(t, k - 1)
  }

  /**
   * The capture of the docblock pattern of `parse` on the trimmed input:
   * the text after the leading slash and two stars, up to the last terminator; None when
   * there is no match.
   */
  function CommentBody(s: string): (r: Option<string>)
  {
    var t := Trim(s);
    if |t| >= 3 && t[0] == '/' && t[1] == '*' && t[2] == '*' then
      match LastClose(t, |t|)
      case Some(j) => Some(t[3..j])
      case None => None
    else None
  }

  /** `explode("\n", s)`: the physical lines, without their line breaks. */
  function SplitLines(s: string): (r: seq<string>)
    ensures |r| > 0
    ensures forall i :: 0 <= i < |r| ==> '\n' !in r[i]
  {
    if s == [] then [""]
    else
      var rest := SplitLines(s[1..]);
      if s[0] == '\n' then [""] + rest else [[s[0]] + rest[0]] + rest[1..]
  }

  /** The lines joined back with line breaks. */
  function JoinLines(ls: seq<string>): string
    requires |ls| > 0
  {
    if |ls| == 1 then ls[0] else ls[0] + "\n" + JoinLines(ls[1..])
  }

  /** Splitting loses nothing: the lines joined with line breaks are the text. */
  lemma {:induction false} SplitJoin(s: string)
    ensures JoinLines(SplitLines(s)) == s
  {
    if s != [] {
      var rest := SplitLines(s[1..]);
      SplitJoin(s[1..]);
      if s[0] == '\n' {
        assert [""] + rest == [""] + rest;
        assert ([""] + rest)[1..] == rest;
      } else {
        var r := [[s[0]] + rest[0]] + rest[1..];
        if |rest| == 1 {
          assert JoinLines(r) == [s[0]] + rest[0];
        } else {
          assert r[1..] == rest[1..];
          assert JoinLines(rest) == rest[0] + "\n" + JoinLines(rest[1..]);
        }
        assert s == [s[0]] + s[1..];
      }
    }
  }

  /**
   * What `^\s*\*(.*)` captures on one line: the rest of the line after its
   * leading blanks and a star. Matched over the whole body in multi-line
   * mode, the blanks may run over empty lines, but every capture still
   * starts on the line of its star and stops at that line's end, so the
   * captures are those of the lines taken one by one.
   */
  function StarContent(line: string): (r: Option<string>)
    ensures r.Some? ==> |r.value| < |line|
  {
    var k := Span(line, IsSpace);
    if k < |line| && line[k] == '*' then Some(line[k + 1..]) else None
  }

  /** The captures of the first `n` lines, in order. */
  function StarLines(ls: seq<string>, n: nat): seq<string>
    requires n <= |ls|
  {
    if n == 0 then []
    else
      var prev := StarLines(ls, n - 1);
      match StarContent(ls[n - 1])
      case Some(c) => prev + [c]
      case None => prev
  }

  /** The starred lines of the docblock `s`, or None when `s` is not one. */
  function DocLines(s: string): Option<seq<string>>
  {
    match CommentBody(s)
    case None => None
    case Some(b) =>
      var ls := SplitLines(Trim(b));
      Some(StarLines(ls, |ls|))
  }

  // ---------------------------------------------------------------------------
  // parse: grouping lines under tags

  /** What a tag holds while grouping: the description text, or the items of a tag. */
  datatype Raw = Text(s: string) | Items(xs: seq<string>)

  /** `$tags`, `$currentTag`, `$currentData`. */
  datatype Grouping = Grouping(tags: seq<(string, Raw)>, tag: string, data: string)

  const Initial := Grouping([], "", "")

  predicate IsTagChar(c: char) { IsAlpha(c) || c == '_' }

  /** `@([a-zA-Z_]*)` on a line that starts with `@`: the tag name. */
  function TagOf(line: string): (r: string)
    requires |line| > 0
    ensures forall i :: 0 <= i < |r| ==> IsTagChar(r[i])
  {
    SpanPrefix(line[1..], IsTagChar);
    line[1..1 + Span(line[1..], IsTagChar)]
  }

  predicate IsTagLine(line: string)
  {
    |line| > 0 && line[0] == '@'
  }

  /**
   * Storing the finished item: appended to the current tag's items when a
   * tag is open, else written as the description. None is the Error of
   * `$tags[$tag][] = ...` when the tag already holds a string, which is what
   * a `@description` tag meets.
   */
  function Flush(tags: seq<(string, Raw)>, tag: string, data: string): (r: Option<seq<(string, Raw)>>)
  {
    if Truthy(tag) then
      match Get<string, Raw>(tags, tag)
      case None => Some(Put(tags, tag, Items([data])))
      case Some(Items(xs)) => Some(Put(tags, tag, Items(xs + [data])))
      case Some(Text(_)) => None
    else Some(Put(tags, "description", Text(data)))
  }

  /** One starred line: a tag line closes the current item and opens a new one; every line is added to the item. */
  function GroupStep(g: Grouping, raw: string): Option<Grouping>
  {
    var line := Trim(raw);
    if IsTagLine(line) then
      match Flush(g.tags, g.tag, g.data)
      case None => None
      case Some(tags) => Some(Grouping(tags, TagOf(line), Trim("" + " " + line)))
    else Some(Grouping(g.tags, g.tag, Trim(g.data + " " + line)))
  }

  /** A left fold over the first `n` lines that stops at the first failing step. */
  function Fold(ls: seq<string>, n: nat, step: (Grouping, string) -> Option<Grouping>): Option<Grouping>
    requires n <= |ls|
  {
    if n == 0 then Some(Initial)
    else match Fold(ls, n - 1, step)
      case None => None
      case Some(g) => step(g, ls[n - 1])
  }

  /** The tags after all lines and the final flush. */
  function GroupedTags(ls: seq<string>): Option<seq<(string, Raw)>>
  {
    match Fold(ls, |ls|, GroupStep)
    case None => None
    case Some(g) => Flush(g.tags, g.tag, g.data)
  }

  lemma {:induction false} FoldFails(ls: seq<string>, i: nat, n: nat, step: (Grouping, string) -> Option<Grouping>)
    requires i <= n <= |ls| && Fold(ls, i, step).None?
    ensures Fold(ls, n, step).None?
    decreases n - i
  {
    if i < n {
      FoldFails(ls, i + 1, n, step);
    }
  }

  // ---------------------------------------------------------------------------
  // parse: item shapes

  predicate IsTypeChar(c: char) { IsAlpha(c) || c == '_' || c == '\\' || c == '[' || c == ']' }

  /** The text after `prefix` with leading blanks skipped (`\s*\t*`). */
  function AfterBlanks(s: string, from: nat): (r: string)
    requires from <= |s|
    ensures |r| <= |s| - from
  {
    s[from + Span(s[from..], IsSpace)..]
  }

  function StartsWithText(s: string, prefix: string): bool
  {
    |prefix| <= |s| && s[..|prefix|] == prefix
  }

  /** An array of string fields in the given order. */
  function Fields(names: seq<string>, values: seq<string>): (r: Value)
    requires |names| == |values|
    ensures r.Arr? && |r.entries| == |names|
    ensures forall i :: 0 <= i < |names| ==> r.entries[i] == (KStr(names[i]), Str(values[i]))
  {
    Arr(seq(|names|, i requires 0 <= i < |names| => (KStr(names[i]), Str(values[i]))))
  }

  /** `^@param\s*\t*([type chars]*)\s*\t*\$([a-zA-Z_]*)\s*\t*(.*)`: `{type, name, description}`, or `{}` without a match. */
  function ParamItem(item: string): (r: Value)
    ensures r == Arr([]) || (r.Arr? && |r.entries| == 3 && r.entries[0].0 == KStr("type") &&
                             r.entries[1].0 == KStr("name") && r.entries[2].0 == KStr("description"))
  {
    if !StartsWithText(item, "@param") then Arr([])
    else
      var a := AfterBlanks(item, 6);
      var ty := a[..Span(a, IsTypeChar)];
      var b := AfterBlanks(a, |ty|);
      if b == [] || b[0] != '$' then Arr([])
      else
        var name := b[1..1 + Span(b[1..], IsTagChar)];
        var desc := AfterBlanks(b, 1 + |name|);
        Fields(["type", "name", "description"], [ty, name, desc])
  }

  /**
   * `^@url\s*\t*(.+)`: `{url}`, or `{}` without a match. When only blanks
   * follow the tag, the greedy blanks give their last character back to `.+`.
   */
  function UrlItem(item: string): (r: Value)
    ensures r == Arr([]) || (r.Arr? && |r.entries| == 1 && r.entries[0].0 == KStr("url") && r.entries[0].1.Str? && r.entries[0].1.s != "")
  {
    if !StartsWithText(item, "@url") then Arr([])
    else
      var rest := item[4..];
      var a := AfterBlanks(item, 4);
      if a != [] then Fields(["url"], [a])
      else if rest != [] then Fields(["url"], [rest[|rest| - 1..]])
      else Arr([])
  }

  /** `^@return\s*\t*([type chars]*)\s*\t*(.*)`: `{type, description}`, or `{}` without a match. */
  function ReturnItem(item: string): (r: Value)
    ensures r == Arr([]) || (r.Arr? && |r.entries| == 2 && r.entries[0].0 == KStr("type") && r.entries[1].0 == KStr("description"))
  {
    if !StartsWithText(item, "@return") then Arr([])
    else
      var a := AfterBlanks(item, 7);
      var ty := a[..Span(a, IsTypeChar)];
      Fields(["type", "description"], [ty, AfterBlanks(a, |ty|)])
  }

  /** One item of a tag: the three known tags are parsed, the others stay text. */
  function ParseItem(tag: string, item: string): Value
  {
    if tag == "param" then ParamItem(item)
    else if tag == "url" then UrlItem(item)
    else if tag == "return" then ReturnItem(item)
    else Str(item)
  }

  /** The value a tag ends with: a single item stands alone, more stay a list in source order. */
  function Render(tag: string, raw: Raw): Value
  {
    match raw
    case Text(s) => Str(s)
    case Items(xs) =>
      if tag == "description" then List(seq(|xs|, i requires 0 <= i < |xs| => Str(xs[i])))
      else
        var vs := ParsedItems(tag, xs);
        if |vs| == 1 then vs[0] else List(vs)
  }

  /** Every item of a tag, parsed by the tag's regex, in source order. */
  function ParsedItems(tag: string, xs: seq<string>): (vs: seq<Value>)
    ensures |vs| == |xs|
  {
    if xs == [] then [] else ParsedItems(tag, xs[..|xs| - 1]) + [ParseItem(tag, xs[|xs| - 1])]
  }

  lemma {:induction false} ParsedItemsSnoc(tag: string, xs: seq<string>, i: nat)
    requires i < |xs|
    ensures ParsedItems(tag, xs[..i + 1]) == ParsedItems(tag, xs[..i]) + [ParseItem(tag, xs[i])]
  {
    var a := xs[..i + 1];
    assert a[..|a| - 1] == xs[..i];
  }

  function RenderAll(tags: seq<(string, Raw)>): (r: seq<(Key, Value)>)
    ensures |r| == |tags|
    ensures forall i :: 0 <= i < |tags| ==> r[i] == (KStr(tags[i].0), Render(tags[i].0, tags[i].1))
  {
    seq(|tags|, i requires 0 <= i < |tags| => (KStr(tags[i].0), Render(tags[i].0, tags[i].1)))
  }

  /** `parse`: the tags of a docblock; `Some([])` for text that is not one, None for the Error of a `@description` tag. */
  function ParseSpec(s: string): Option<seq<(Key, Value)>>
  {
    match DocLines(s)
    case None => Some([])
    case Some(ls) =>
      match GroupedTags(ls)
      case None => None
      case Some(tags) => Some(RenderAll(tags))
  }

  /** The inner `foreach ($data as &$item)` and the collapse of a single item. */
  method RenderTag(tag: string, raw: Raw) returns (v: Value)
    ensures v == Render(tag, raw)
  {
    if raw.Text? || tag == "description" {
      return Render(tag, raw);
    }
    var xs := raw.xs;
    var items: seq<Value> := [];
    var i := 0;
    while i < |xs|
      invariant 0 <= i <= |xs|
      invariant items == ParsedItems(tag, xs[..i])
    {
      ParsedItemsSnoc(tag, xs, i);
      items := items + [ParseItem(tag, xs[i])];
      i := i + 1;
    }
    assert xs[..i] == xs;
    if |items| == 1 {
      v := items[0];
    } else {
      v := List(items);
    }
  }

  /** The body of the `foreach` of `parse`, on one starred line; None where the flush throws. */
  method GroupLine(g: Grouping, raw: string) returns (r: Option<Grouping>)
    ensures r == GroupStep(g, raw)
  {
    var line := Trim(raw);
    var tags, currentTag, currentData := g.tags, g.tag, g.data;
    if IsTagLine(line) {
      var flushed := Flush(tags, currentTag, currentData);
      if flushed.None? {
        return None;
      }
      tags := flushed.value;
      currentData := "";
      currentTag := TagOf(line);
    }
    currentData := Trim(currentData + " " + line);
    r := Some(Grouping(tags, currentTag, currentData));
  }

  /**
   * The `foreach` of `parse` over the starred lines, for any body `step`:
   * it stops at the first failing line and otherwise ends with the fold.
   */
  method FoldLines(lines: seq<string>, step: (Grouping, string) -> Option<Grouping>) returns (r: Option<Grouping>)
    ensures r == Fold(lines, |lines|, step)
  {
    var i := 0;
    var g := Initial;
    while i < |lines|
      invariant 0 <= i <= |lines|
      invariant Fold(lines, i, step) == Some(g)
    {
      var next := step(g, lines[i]);
      if next.None? {
        FoldFails(lines, i + 1, |lines|, step);
        return None;
      }
      g := next.value;
      i := i + 1;
    }
    r := Some(g);
  }

  /** The outer `foreach ($tags as $tag => &$data)` of `parse`. */
  method RenderTags(tags: seq<(string, Raw)>) returns (out: seq<(Key, Value)>)
    ensures out == RenderAll(tags)
  {
    out := [];
    var j := 0;
    while j < |tags|
      invariant 0 <= j <= |tags|
      invariant out == RenderAll(tags[..j])
    {
      var v := RenderTag(tags[j].0, tags[j].1);
      assert tags[..j + 1] == tags[..j] + [tags[j]];
      out := out + [(KStr(tags[j].0), v)];
      j := j + 1;
    }
    assert tags[..j] == tags;
  }

  /** `parse`: groups the starred lines under their tags, then rewrites each tag's items. */
  method Parse(s: string) returns (r: Option<seq<(Key, Value)>>)
    ensures r == ParseSpec(s)
  {
    var body := CommentBody(s);
    if body.None? {
      return Some([]);
    }
    var physical := SplitLines(Trim(body.value));
    var lines := StarLines(physical, |physical|);
    var grouped := FoldLines(lines, GroupStep);
    if grouped.None? {
      return None;
    }
    var g := grouped.value;
    var tags := Flush(g.tags, g.tag, g.data);
    if tags.None? {
      return None;
    }
    var out := RenderTags(tags.value);
    return Some(out);
  }

  // ---------------------------------------------------------------------------
  // fill: the text of a default value

  /** How `var_export` writes a NUL byte inside a quoted string: it closes the quote, appends `"\0"` and reopens. */
  const NulSpelling: string := "'" + " . " + "\"\\0\"" + " . " + "'"

  /**
   * The inside of a quoted string as `var_export` writes it:
   * `addcslashes($s, "'\\")` (a backslash before every quote and backslash),
   * then every NUL byte replaced by `NulSpelling`.
   */
  function QuoteEscape(s: string): (r: string)
    ensures |r| >= |s|
  {
    if s == [] then []
    else
      (if s[0] == '\'' || s[0] == '\\' then ['\\', s[0]] else if s[0] == '\0' then NulSpelling else [s[0]]) +
      QuoteEscape(s[1..])
  }

  /**
   * How `var_export` writes an integer value: `PHP_INT_MIN` as
   * `-9223372036854775807-1`, which PHP reads back as an integer; any other
   * in decimal. Integer keys are always written in decimal.
   */
  function ExportInt(i: int): string
  {
    if i == PhpIntMin then IntToString(i + 1) + "-1" else IntToString(i)
  }

  function Spaces(n: nat): string { Repeat(" ", n) }

  /** How `var_export` writes an array key. */
  function ExportKey(k: Key): string
  {
    match k
    case KInt(n) => IntToString(n)
    case KStr(t) => "'" + QuoteEscape(t) + "'"
  }

  /**
   * `var_export($v, true)` at nesting `level` (1 at the top): a nested array
   * starts on a new line, each entry is indented one more than its array and
   * followed by a comma and a line break.
   */
  function VarExport(v: Value, level: nat): string
    decreases v, 1
  {
    match v
    case Null => "NULL"
    case Bool(b) => if b then "true" else "false"
    case Int(i) => ExportInt(i)
    case Str(t) => "'" + QuoteEscape(t) + "'"
    case Arr(es) => ArrayOpen(level) + ExportEntries(v, |es|, level) + ArrayClose(level)
  }

  function ArrayOpen(level: nat): string
  {
    (if level > 1 then "\n" + Spaces(level - 1) else "") + "array (\n"
  }

  function ArrayClose(level: nat): string
  {
    (if level > 1 then Spaces(level - 1) else "") + ")"
  }

  /** The first `n` entries of the array `a` as `var_export` lists them. */
  function ExportEntries(a: Value, n: nat, level: nat): string
    requires a.Arr? && n <= |a.entries|
    decreases a, 0, n
  {
    if n == 0 then ""
    else
      var e := a.entries[n - 1];
      assert e in a.entries;
      ExportEntries(a, n - 1, level) + ExportEntry(e.0, VarExport(e.1, level + 2), level)
  }

  /** One entry line, given the export of its value. */
  function ExportEntry(k: Key, inner: string, level: nat): string
  {
    Spaces(level + 1) + ExportKey(k) + " => " + inner + ",\n"
  }

  /** `str_replace(array("\n", ' '), '', $s)`. */
  function Squeeze(s: string): (r: string)
    ensures |r| <= |s|
  {
    if s == [] then []
    else (if s[0] == '\n' || s[0] == ' ' then [] else [s[0]]) + Squeeze(s[1..])
  }

  /** The default as `fill` stores it: the export with its line breaks and spaces removed. */
  function DefaultText(v: Value): string
  {
    Squeeze(VarExport(v, 1))
  }

  /** How the NUL spelling reads once `fill` has removed its blanks. */
  lemma {:induction false} SqueezeNul()
    ensures Squeeze(NulSpelling) == "'" + "." + "\"\\0\"" + "." + "'"
  {
    var q, dot, z := "'", " . ", "\"\\0\"";
    SqueezeAppend(q + dot + z + dot, q);
    SqueezeAppend(q + dot + z, dot);
    SqueezeAppend(q + dot, z);
    SqueezeAppend(q, dot);
    assert Squeeze(dot) == ".";
    SqueezeKeeps(q);
    SqueezeKeeps(z);
  }

  lemma {:induction false} QuoteEscapeAppend(x: string, y: string)
    ensures QuoteEscape(x + y) == QuoteEscape(x) + QuoteEscape(y)
  {
    if x != [] {
      assert (x + y)[0] == x[0] && (x + y)[1..] == x[1..] + y;
      QuoteEscapeAppend(x[1..], y);
    } else {
      assert x + y == y;
    }
  }

  /** `var_export` spells a NUL byte inside a string as `NulSpelling`, between the escaped texts around it. */
  lemma {:induction false} QuoteEscapeNul(x: string, y: string)
    ensures QuoteEscape(x + ['\0'] + y) == QuoteEscape(x) + NulSpelling + QuoteEscape(y)
  {
    QuoteEscapeAppend(x + ['\0'], y);
    QuoteEscapeAppend(x, ['\0']);
    assert QuoteEscape(['\0']) == NulSpelling + QuoteEscape([]) by {
      assert ['\0'][1..] == [];
    }
  }

  /**
   * A string default holding a NUL byte is stored with the NUL spelled
   * `'."\0".'` (see `SqueezeNul`) between the texts before and after it:
   * `"a\0b"` becomes `'a'."\0".'b'`.
   */
  lemma {:induction false} DefaultTextNul(x: string, y: string)
    ensures DefaultText(Str(x + ['\0'] + y)) ==
            "'" + Squeeze(QuoteEscape(x)) + Squeeze(NulSpelling) + Squeeze(QuoteEscape(y)) + "'"
  {
    DefaultTextStr(x + ['\0'] + y);
    SqueezeEscapedNul(x, y);
  }

  /** A string default is its squeezed escape, in single quotes. */
  lemma {:induction false} DefaultTextStr(t: string)
    ensures DefaultText(Str(t)) == "'" + Squeeze(QuoteEscape(t)) + "'"
  {
    SqueezeExport(Str(t), 1);
  }

  /** The squeezed escape of a string around a NUL, piece by piece. */
  lemma {:induction false} SqueezeEscapedNul(x: string, y: string)
    ensures Squeeze(QuoteEscape(x + ['\0'] + y)) ==
            Squeeze(QuoteEscape(x)) + Squeeze(NulSpelling) + Squeeze(QuoteEscape(y))
  {
    var a, b := QuoteEscape(x), QuoteEscape(y);
    QuoteEscapeNul(x, y);
    SqueezeAppend(a + NulSpelling, b);
    SqueezeAppend(a, NulSpelling);
  }

  /**
   * A `PHP_INT_MIN` default is stored as `-9223372036854775807-1`: a minus,
   * the decimal text of `PHP_INT_MAX`, then `-1`.
   */
  lemma {:induction false} DefaultTextIntMin()
    ensures DefaultText(Int(PhpIntMin)) == "-" + NatToString(9223372036854775807) + "-1"
  {
    SqueezeExport(Int(PhpIntMin), 1);
    SqueezeExportInt(PhpIntMin);
  }

  /**
   * The stored default defined directly on the value: no layout at all,
   * `array(` entries `key=>value,` `)`, strings quoted with their blanks
   * removed.
   */
  function Compact(v: Value): string
    decreases v, 1
  {
    match v
    case Arr(es) => "array(" + CompactEntries(v, |es|) + ")"
    case Str(t) => "'" + Squeeze(QuoteEscape(t)) + "'"
    case Null => "NULL"
    case Bool(b) => if b then "true" else "false"
    case Int(i) => ExportInt(i)
  }

  function CompactEntries(a: Value, n: nat): string
    requires a.Arr? && n <= |a.entries|
    decreases a, 0, n
  {
    if n == 0 then ""
    else
      var e := a.entries[n - 1];
      assert e in a.entries;
      CompactEntries(a, n - 1) + Squeeze(ExportKey(e.0)) + "=>" + Compact(e.1) + ","
  }

  lemma {:induction false} SqueezeAppend(x: string, y: string)
    ensures Squeeze(x + y) == Squeeze(x) + Squeeze(y)
  {
    if x != [] {
      var head := if x[0] == '\n' || x[0] == ' ' then [] else [x[0]];
      assert (x + y)[0] == x[0];
      assert (x + y)[1..] == x[1..] + y;
      SqueezeAppend(x[1..], y);
      assert Squeeze(x + y) == head + (Squeeze(x[1..]) + Squeeze(y));
      assert Squeeze(x) == head + Squeeze(x[1..]);
    } else {
      assert x + y == y;
    }
  }

  lemma {:induction false} SqueezeKeeps(x: string)
    requires forall i :: 0 <= i < |x| ==> x[i] != '\n' && x[i] != ' '
    ensures Squeeze(x) == x
  {
    if x != [] {
      SqueezeKeeps(x[1..]);
    }
  }

  lemma {:induction false} SqueezeSpaces(n: nat)
    ensures Squeeze(Spaces(n)) == ""
  {
    if n > 0 {
      SqueezeSpaces(n - 1);
      SqueezeAppend(Spaces(n - 1), " ");
    }
  }

  lemma {:induction false} SqueezeIntText(i: int)
    ensures Squeeze(IntToString(i)) == IntToString(i)
  {
    var t := IntToString(i);
    if i < 0 {
      assert forall k :: 1 <= k < |t| ==> IsDigit(t[k]) by {
        forall k | 1 <= k < |t| ensures IsDigit(t[k]) {
          assert t[k] == NatToString(-i)[k - 1];
        }
      }
    }
    SqueezeKeeps(t);
  }

  lemma {:induction false} SqueezeExportInt(i: int)
    ensures Squeeze(ExportInt(i)) == ExportInt(i)
  {
    if i == PhpIntMin {
      SqueezeAppend(IntToString(i + 1), "-1");
      SqueezeIntText(i + 1);
      SqueezeKeeps("-1");
    } else {
      SqueezeIntText(i);
    }
  }

  lemma {:induction false} SqueezeOpen(level: nat)
    ensures Squeeze(ArrayOpen(level)) == "array("
  {
    var pre := if level > 1 then "\n" + Spaces(level - 1) else "";
    assert Squeeze(pre) == "" by {
      if level > 1 {
        SqueezeAppend("\n", Spaces(level - 1));
        SqueezeSpaces(level - 1);
      }
    }
    SqueezeAppend(pre, "array (\n");
    SqueezeArrayWord();
  }

  /** The fixed pieces of the export layout, without their blanks. */
  lemma {:induction false} SqueezeArrayWord()
    ensures Squeeze("array (\n") == "array("
  {
    assert "array (\n" == "array" + " (\n";
    SqueezeAppend("array", " (\n");
    SqueezeKeeps("array");
  }

  lemma {:induction false} SqueezeArrow()
    ensures Squeeze(" => ") == "=>"
  {
  }

  lemma {:induction false} SqueezeCommaBreak()
    ensures Squeeze(",\n") == ","
  {
  }

  lemma {:induction false} SqueezeClose(level: nat)
    ensures Squeeze(ArrayClose(level)) == ")"
  {
    var pre := if level > 1 then Spaces(level - 1) else "";
    assert Squeeze(pre) == "" by {
      if level > 1 {
        SqueezeSpaces(level - 1);
      }
    }
    SqueezeAppend(pre, ")");
  }

  lemma {:induction false} SqueezeArrowTail(tail: string)
    ensures Squeeze(" => " + tail) == "=>" + Squeeze(tail)
  {
    SqueezeAppend(" => ", tail);
    SqueezeArrow();
  }

  lemma {:induction false} SqueezeCommaTail(inner: string)
    ensures Squeeze(inner + ",\n") == Squeeze(inner) + ","
  {
    SqueezeAppend(inner, ",\n");
    SqueezeCommaBreak();
  }

  lemma {:induction false} SqueezeIndented(n: nat, x: string)
    ensures Squeeze(Spaces(n) + x) == Squeeze(x)
  {
    SqueezeAppend(Spaces(n), x);
    SqueezeSpaces(n);
  }

  lemma {:induction false} SqueezeEntry(k: Key, inner: string, level: nat)
    ensures Squeeze(ExportEntry(k, inner, level)) == Squeeze(ExportKey(k)) + "=>" + Squeeze(inner) + ","
  {
    var key := ExportKey(k);
    var tail := inner + ",\n";
    assert ExportEntry(k, inner, level) == Spaces(level + 1) + (key + (" => " + tail));
    SqueezeIndented(level + 1, key + (" => " + tail));
    SqueezeAppend(key, " => " + tail);
    SqueezeArrowTail(tail);
    SqueezeCommaTail(inner);
  }

  /** Removing the layout of `var_export` gives the compact text, at any nesting. */
  lemma {:induction false} SqueezeExport(v: Value, level: nat)
    ensures Squeeze(VarExport(v, level)) == Compact(v)
    decreases v, 1
  {
    match v
    case Null =>
      SqueezeKeeps("NULL");
    case Bool(b) =>
      SqueezeKeeps("true");
      SqueezeKeeps("false");
    case Int(i) =>
      SqueezeExportInt(i);
    case Str(t) =>
      SqueezeAppend("'" + QuoteEscape(t), "'");
      SqueezeAppend("'", QuoteEscape(t));
      SqueezeKeeps("'");
    case Arr(es) =>
      var body := ExportEntries(v, |es|, level);
      SqueezeAppend(ArrayOpen(level) + body, ArrayClose(level));
      SqueezeAppend(ArrayOpen(level), body);
      SqueezeOpen(level);
      SqueezeClose(level);
      SqueezeEntries(v, |es|, level);
  }

  lemma {:induction false} SqueezeEntries(a: Value, n: nat, level: nat)
    requires a.Arr? && n <= |a.entries|
    ensures Squeeze(ExportEntries(a, n, level)) == CompactEntries(a, n)
    decreases a, 0, n, 2
  {
    if n > 0 {
      SqueezeEntriesStep(a, n, level);
    }
  }

  /** The first `n` entries squeeze to their compact text, given that the first `n - 1` do. */
  lemma {:induction false} SqueezeEntriesStep(a: Value, n: nat, level: nat)
    requires a.Arr? && 0 < n <= |a.entries|
    ensures Squeeze(ExportEntries(a, n, level)) == CompactEntries(a, n)
    decreases a, 0, n, 1
  {
    var e := a.entries[n - 1];
    SqueezeEntries(a, n - 1, level);
    EntriesLast(a, n, level);
    SqueezeLastEntry(a, n, level);
    SqueezeAppend(ExportEntries(a, n - 1, level), ExportEntry(e.0, VarExport(e.1, level + 2), level));
  }

  /** Both entry lists grow by their last entry. */
  lemma {:induction false} EntriesLast(a: Value, n: nat, level: nat)
    requires a.Arr? && 0 < n <= |a.entries|
    ensures var e := a.entries[n - 1];
            ExportEntries(a, n, level) == ExportEntries(a, n - 1, level) + ExportEntry(e.0, VarExport(e.1, level + 2), level) &&
            CompactEntries(a, n) == CompactEntries(a, n - 1) + (Squeeze(ExportKey(e.0)) + "=>" + Compact(e.1) + ",")
  {
    ExportEntriesLast(a, n, level);
    CompactEntriesLast(a, n);
  }

  lemma {:induction false} ExportEntriesLast(a: Value, n: nat, level: nat)
    requires a.Arr? && 0 < n <= |a.entries|
    ensures var e := a.entries[n - 1];
            ExportEntries(a, n, level) == ExportEntries(a, n - 1, level) + ExportEntry(e.0, VarExport(e.1, level + 2), level)
  {
  }

  lemma {:induction false} CompactEntriesLast(a: Value, n: nat)
    requires a.Arr? && 0 < n <= |a.entries|
    ensures var e := a.entries[n - 1];
            CompactEntries(a, n) == CompactEntries(a, n - 1) + (Squeeze(ExportKey(e.0)) + "=>" + Compact(e.1) + ",")
  {
  }

  /** The last of the first `n` entries squeezes to its compact text. */
  lemma {:induction false} SqueezeLastEntry(a: Value, n: nat, level: nat)
    requires a.Arr? && 0 < n <= |a.entries|
    ensures var e := a.entries[n - 1];
            Squeeze(ExportEntry(e.0, VarExport(e.1, level + 2), level)) == Squeeze(ExportKey(e.0)) + "=>" + Compact(e.1) + ","
    decreases a, 0, n - 1, 0
  {
    var e := a.entries[n - 1];
    assert e in a.entries;
    SqueezeExport(e.1, level + 2);
    SqueezeEntry(e.0, VarExport(e.1, level + 2), level);
  }

  // ---------------------------------------------------------------------------
  // fill: the metadata record

  /** The `$params` map: declared parameters by name, over the first `n`. */
  function ParamsByName(ps: seq<Param>, n: nat): seq<(string, Param)>
    requires n <= |ps|
  {
    if n == 0 then [] else Put(ParamsByName(ps, n - 1), ps[n - 1].name, ps[n - 1])
  }

  /** The `param` entry `fill` writes for a declared parameter when the docblock has no `@param`. */
  function SynthesizedParam(p: Param): Value
  {
    Arr([(KStr("name"), Str(p.name)), (KStr("type"), Str(if p.isArray then "array" else "mixed"))])
  }

  function Synthesized(ps: seq<Param>): seq<Value>
  {
    seq(|ps|, i requires 0 <= i < |ps| => SynthesizedParam(ps[i]))
  }

  /** The docblock after the first `foreach`: without `@param`, one synthesised entry per declared parameter. */
  function WithParams(doc: seq<(Key, Value)>, ps: seq<Param>): seq<(Key, Value)>
  {
    if !IsSet(doc, "param") && ps != [] then Put(doc, KStr("param"), List(Synthesized(ps))) else doc
  }

  /** The values of an array, in order. */
  function Values(es: seq<(Key, Value)>): (r: seq<Value>)
    ensures |r| == |es| && forall i :: 0 <= i < |es| ==> r[i] == es[i].1
  {
    seq(|es|, i requires 0 <= i < |es| => es[i].1)
  }

  /**
   * What the second `foreach` visits: the `param` list, with a lone item
   * (an array whose first key is a string) wrapped as a list of one.
   */
  function DocParamItems(doc: seq<(Key, Value)>): seq<Value>
  {
    match Lookup(doc, "param")
    case Arr(es) => if es != [] && es[0].0.KStr? then [Arr(es)] else Values(es)
    case _ => []
  }

  /** `$parameters` and the counter `$c` of matched parameters. */
  datatype Binding = Binding(parameters: seq<(Key, Value)>, c: nat)

  /** `'$' . ($c + 1)` when the regex capture at `$c` is truthy, else nothing. */
  function FromRegex(matches: Option<seq<string>>, c: nat): seq<(Key, Value)>
  {
    if matches.Some? && c < |matches.value| && Truthy(matches.value[c])
    then [(KStr("fromRegex"), Str("$" + NatToString(c + 1)))]
    else []
  }

  /** The record of one documented parameter that is declared as `p`. */
  function ParamRecord(item: Value, p: Param, matches: Option<seq<string>>, c: nat): Value
    requires item.Arr?
  {
    Arr([(KStr("type"), Lookup(item.entries, "type"))] + FromRegex(matches, c) +
        [(KStr("required"), Bool(!p.optional))] +
        (if p.optional then [(KStr("default"), Str(DefaultText(p.default)))] else []))
  }

  /** The name a documented item gives, when it gives one that is declared. */
  function DeclaredFor(item: Value, byName: seq<(string, Param)>): Option<Param>
  {
    if !item.Arr? then None
    else match Lookup(item.entries, "name")
      case Str(n) => Get(byName, n)
      case _ => None
  }

  /** One iteration of the second `foreach`: an item naming no declared parameter is skipped. */
  function BindStep(b: Binding, item: Value, byName: seq<(string, Param)>, matches: Option<seq<string>>): Binding
  {
    match DeclaredFor(item, byName)
    case None => b
    case Some(p) =>
      var key := KStr(ArgumentName(Lookup(item.entries, "name").s));
      Binding(Put(b.parameters, key, ParamRecord(item, p, matches, b.c)), b.c + 1)
  }

  function BindAll(items: seq<Value>, n: nat, byName: seq<(string, Param)>, matches: Option<seq<string>>): Binding
    requires n <= |items|
  {
    if n == 0 then Binding([], 0) else BindStep(BindAll(items, n - 1, byName, matches), items[n - 1], byName, matches)
  }

  /** `$phpDoc['return']`, or `{type: mixed}` when the docblock has none. */
  function ReturnOf(doc: seq<(Key, Value)>): Value
  {
    if IsSet(doc, "return") then Lookup(doc, "return") else Arr([(KStr("type"), Str("mixed"))])
  }

  /** `$result[$k] = $phpDoc[$k]` when set. */
  function CopyIfSet(doc: seq<(Key, Value)>, k: string): seq<(Key, Value)>
  {
    if IsSet(doc, k) then [(KStr(k), Lookup(doc, k))] else []
  }

  /** `fill`: parameters, return, and the description and urls when the docblock has them. */
  function FillSpec(doc: seq<(Key, Value)>, ps: seq<Param>, matches: Option<seq<string>>): seq<(Key, Value)>
  {
    var d := WithParams(doc, ps);
    var items := DocParamItems(d);
    var b := BindAll(items, |items|, ParamsByName(ps, |ps|), matches);
    [(KStr("parameters"), Arr(b.parameters)), (KStr("return"), ReturnOf(d))] + CopyIfSet(d, "description") + CopyIfSet(d, "url")
  }

  lemma {:induction false} SynthesizedSnoc(ps: seq<Param>, i: nat)
    requires i < |ps|
    ensures Synthesized(ps[..i + 1]) == Synthesized(ps[..i]) + [SynthesizedParam(ps[i])]
  {
    var l, r := Synthesized(ps[..i + 1]), Synthesized(ps[..i]) + [SynthesizedParam(ps[i])];
    assert |l| == |r|;
    forall j | 0 <= j < |l| ensures l[j] == r[j] {
      if j < i { assert l[j] == SynthesizedParam(ps[j]); }
    }
  }

  /** Writing the longer `param` list replaces whatever list was written before. */
  lemma {:induction false} ParamEntryStep(phpDoc: seq<(Key, Value)>, doc: seq<(Key, Value)>, before: seq<Value>, v: Value)
    requires doc == if before == [] then phpDoc else Put(phpDoc, KStr("param"), List(before))
    ensures Put(doc, KStr("param"), List(before + [v])) == Put(phpDoc, KStr("param"), List(before + [v]))
  {
    if before != [] {
      PutPut(phpDoc, KStr("param"), List(before), List(before + [v]));
    }
  }

  /** The first `foreach` of `fill`: indexes the declared parameters by name, and documents them when the docblock does not. */
  method IndexParams(phpDoc: seq<(Key, Value)>, refParams: seq<Param>)
    returns (params: seq<(string, Param)>, doc: seq<(Key, Value)>)
    ensures params == ParamsByName(refParams, |refParams|)
    ensures doc == WithParams(phpDoc, refParams)
  {
    params := [];
    var fillPhpDocParam := !IsSet(phpDoc, "param");
    doc := phpDoc;
    var added: seq<Value> := [];
    var i := 0;
    while i < |refParams|
      invariant 0 <= i <= |refParams|
      invariant params == ParamsByName(refParams, i)
      invariant added == (if fillPhpDocParam then Synthesized(refParams[..i]) else [])
      invariant doc == if added == [] then phpDoc else Put(phpDoc, KStr("param"), List(added))
    {
      var param := refParams[i];
      params := Put(params, param.name, param);
      if fillPhpDocParam {
        SynthesizedSnoc(refParams, i);
        ParamEntryStep(phpDoc, doc, added, SynthesizedParam(param));
        added := added + [SynthesizedParam(param)];
        doc := Put(doc, KStr("param"), List(added));
      }
      i := i + 1;
    }
    assert refParams[..i] == refParams;
  }

  /** The second `foreach` of `fill`: one record per documented parameter that is declared. */
  method BindParams(items: seq<Value>, params: seq<(string, Param)>, regMatches: Option<seq<string>>)
    returns (b: Binding)
    ensures b == BindAll(items, |items|, params, regMatches)
  {
    b := Binding([], 0);
    var j := 0;
    while j < |items|
      invariant 0 <= j <= |items|
      invariant b == BindAll(items, j, params, regMatches)
    {
      b := BindStep(b, items[j], params, regMatches);
      j := j + 1;
    }
  }

  /** `fill`. */
  method Fill(phpDoc: seq<(Key, Value)>, refParams: seq<Param>, regMatches: Option<seq<string>>)
    returns (result: seq<(Key, Value)>)
    ensures result == FillSpec(phpDoc, refParams, regMatches)
  {
    var params, doc := IndexParams(phpDoc, refParams);
    var b := BindParams(DocParamItems(doc), params, regMatches);
    var head := [(KStr("parameters"), Arr(b.parameters)), (KStr("return"), ReturnOf(doc))];
    result := head;
    if IsSet(doc, "description") {
      result := result + [(KStr("description"), Lookup(doc, "description"))];
    }
    assert result == head + CopyIfSet(doc, "description");
    if IsSet(doc, "url") {
      result := result + [(KStr("url"), Lookup(doc, "url"))];
    }
    assert result == head + CopyIfSet(doc, "description") + CopyIfSet(doc, "url");
    FillParts(phpDoc, refParams, regMatches, doc, b);
  }

  /** `fill`'s record is assembled from the completed docblock and the bound parameters. */
  lemma {:induction false} FillParts(phpDoc: seq<(Key, Value)>, ps: seq<Param>, matches: Option<seq<string>>, doc: seq<(Key, Value)>, b: Binding)
    requires doc == WithParams(phpDoc, ps)
    requires b == BindAll(DocParamItems(doc), |DocParamItems(doc)|, ParamsByName(ps, |ps|), matches)
    ensures FillSpec(phpDoc, ps, matches) ==
            [(KStr("parameters"), Arr(b.parameters)), (KStr("return"), ReturnOf(doc))] + CopyIfSet(doc, "description") + CopyIfSet(doc, "url")
  {
  }

  // ---------------------------------------------------------------------------
  // properties of parse

  /** Text that is not a docblock has no tags. */
  lemma {:induction false} ParseNonDocblock(s: string)
    requires CommentBody(s).None?
    ensures ParseSpec(s) == Some([])
  {
  }

  /** The description is always the first tag, and it is text. */
  predicate DescriptionFirst(g: Grouping)
  {
    (g.tags == [] ==> g.tag == "") &&
    (g.tags != [] ==> g.tags[0].0 == "description" && g.tags[0].1.Text?)
  }

  lemma {:induction false} FlushDescriptionFirst(g: Grouping)
    requires DescriptionFirst(g) && Flush(g.tags, g.tag, g.data).Some?
    ensures var t := Flush(g.tags, g.tag, g.data).value; t != [] && t[0].0 == "description" && t[0].1.Text?
  {
    if Truthy(g.tag) {
      match Get<string, Raw>(g.tags, g.tag)
      case None =>
        PutFirst(g.tags, g.tag, Items([g.data]));
      case Some(Items(xs)) =>
        PutFirst(g.tags, g.tag, Items(xs + [g.data]));
    } else if g.tags != [] {
      PutFirst(g.tags, "description", Text(g.data));
    }
  }

  /** A property every step keeps holds of the fold. */
  lemma {:induction false} FoldInvariant(ls: seq<string>, n: nat, step: (Grouping, string) -> Option<Grouping>, inv: Grouping -> bool)
    requires n <= |ls| && inv(Initial)
    requires forall g, x :: inv(g) && step(g, x).Some? ==> inv(step(g, x).value)
    ensures Fold(ls, n, step).Some? ==> inv(Fold(ls, n, step).value)
  {
    if n > 0 {
      FoldInvariant(ls, n - 1, step, inv);
    }
  }

  lemma {:induction false} StepDescriptionFirst(g: Grouping, raw: string)
    requires DescriptionFirst(g) && GroupStep(g, raw).Some?
    ensures DescriptionFirst(GroupStep(g, raw).value)
  {
    if IsTagLine(Trim(raw)) {
      FlushDescriptionFirst(g);
    }
  }

  lemma {:induction false} FoldDescriptionFirst(ls: seq<string>, n: nat)
    requires n <= |ls|
    ensures Fold(ls, n, GroupStep).Some? ==> DescriptionFirst(Fold(ls, n, GroupStep).value)
  {
    forall g, x | DescriptionFirst(g) && GroupStep(g, x).Some?
      ensures DescriptionFirst(GroupStep(g, x).value)
    {
      StepDescriptionFirst(g, x);
    }
    FoldInvariant(ls, n, GroupStep, DescriptionFirst);
  }

  /** Every docblock that parses starts with its description, as text. */
  lemma {:induction false} ParseDescriptionFirst(s: string)
    requires CommentBody(s).Some? && ParseSpec(s).Some?
    ensures var r := ParseSpec(s).value; r != [] && r[0].0 == KStr("description") && r[0].1.Str?
  {
    var ls := DocLines(s).value;
    FoldDescriptionFirst(ls, |ls|);
    var g := Fold(ls, |ls|, GroupStep).value;
    FlushDescriptionFirst(g);
  }

  /** The trimmed lines joined with single spaces, blank ones left out. */
  function JoinWords(ls: seq<string>, n: nat): (r: string)
    requires n <= |ls|
    ensures IsTrimmedText(r)
  {
    if n == 0 then ""
    else
      var prev := JoinWords(ls, n - 1);
      var w := Trim(ls[n - 1]);
      if w == "" then prev else if prev == "" then w else prev + " " + w
  }

  lemma {:induction false} UntaggedStep(data: string, raw: string)
    requires IsTrimmedText(data) && !IsTagLine(Trim(raw))
    ensures GroupStep(Grouping([], "", data), raw) ==
            Some(Grouping([], "", var w := Trim(raw); if w == "" then data else if data == "" then w else data + " " + w))
  {
    TrimResultTrimmed(raw);
    TrimJoin(data, Trim(raw));
  }

  /** A fold whose every step takes `gs[i]` to `gs[i + 1]` ends in `gs[n]`. */
  lemma {:induction false} FoldTrack(ls: seq<string>, n: nat, step: (Grouping, string) -> Option<Grouping>, gs: seq<Grouping>)
    requires n <= |ls| && |gs| == n + 1 && gs[0] == Initial
    requires forall i :: 0 <= i < n ==> step(gs[i], ls[i]) == Some(gs[i + 1])
    ensures Fold(ls, n, step) == Some(gs[n])
  {
    if n > 0 {
      FoldTrack(ls, n - 1, step, gs[..n]);
      assert step(gs[n - 1], ls[n - 1]) == Some(gs[n]);
    }
  }

  lemma {:induction false} UntaggedFold(ls: seq<string>, n: nat)
    requires n <= |ls|
    requires forall i :: 0 <= i < n ==> !IsTagLine(Trim(ls[i]))
    ensures Fold(ls, n, GroupStep) == Some(Grouping([], "", JoinWords(ls, n)))
  {
    var gs := UntaggedGroupings(ls, n);
    FoldTrack(ls, n, GroupStep, gs);
  }

  /** The groupings an untagged fold passes through. */
  lemma {:induction false} UntaggedGroupings(ls: seq<string>, n: nat) returns (gs: seq<Grouping>)
    requires n <= |ls|
    requires forall i :: 0 <= i < n ==> !IsTagLine(Trim(ls[i]))
    ensures |gs| == n + 1 && gs[0] == Initial && gs[n] == Grouping([], "", JoinWords(ls, n))
    ensures forall i :: 0 <= i < n ==> GroupStep(gs[i], ls[i]) == Some(gs[i + 1])
  {
    gs := seq(n + 1, i requires 0 <= i <= n => Grouping([], "", JoinWords(ls, i)));
    forall i | 0 <= i < n
      ensures GroupStep(gs[i], ls[i]) == Some(gs[i + 1])
    {
      assert gs[i] == Grouping([], "", JoinWords(ls, i));
      assert gs[i + 1] == Grouping([], "", JoinWords(ls, i + 1));
      UntaggedStepAt(ls, i);
    }
  }

  lemma {:induction false} UntaggedStepAt(ls: seq<string>, i: nat)
    requires i < |ls| && !IsTagLine(Trim(ls[i]))
    ensures GroupStep(Grouping([], "", JoinWords(ls, i)), ls[i]) == Some(Grouping([], "", JoinWords(ls, i + 1)))
  {
    UntaggedStep(JoinWords(ls, i), ls[i]);
  }

  /** The final flush of a fold that met no tag stores its text as the description. */
  lemma {:induction false} FlushDescription(j: string)
    ensures Flush([], "", j) == Some([("description", Text(j))])
  {
    var none: seq<(string, Raw)> := [];
    assert !Truthy("");
    PutNew(none, "description", Text(j));
    assert none + [("description", Text(j))] == [("description", Text(j))];
  }

  /** A docblock without tags is all description: its lines, trimmed and joined with single spaces. */
  lemma {:induction false} ParseUntagged(s: string)
    requires DocLines(s).Some?
    requires var ls := DocLines(s).value; forall i :: 0 <= i < |ls| ==> !IsTagLine(Trim(ls[i]))
    ensures var ls := DocLines(s).value; ParseSpec(s) == Some([(KStr("description"), Str(JoinWords(ls, |ls|)))])
  {
    var ls := DocLines(s).value;
    var j := JoinWords(ls, |ls|);
    UntaggedFold(ls, |ls|);
    FlushDescription(j);
    assert GroupedTags(ls) == Some([("description", Text(j))]);
    assert RenderAll([("description", Text(j))]) == [(KStr("description"), Str(j))];
  }

  /** The description is stored first with the given text, and a named tag is open. */
  predicate DescriptionKept(g: Grouping, text: string)
  {
    g.tags != [] && g.tags[0] == ("description", Text(text)) && Truthy(g.tag)
  }

  /** Under an open named tag, a flush that succeeds leaves the stored description first and unchanged. */
  lemma {:induction false} FlushKeepsDescription(g: Grouping, text: string)
    requires DescriptionKept(g, text) && Flush(g.tags, g.tag, g.data).Some?
    ensures var t := Flush(g.tags, g.tag, g.data).value; t != [] && t[0] == ("description", Text(text))
  {
    if g.tag == "description" {
      GetFirstAt(g.tags, g.tag, 0);
    } else {
      match Get<string, Raw>(g.tags, g.tag)
      case None =>
        PutFirst(g.tags, g.tag, Items([g.data]));
      case Some(Items(xs)) =>
        PutFirst(g.tags, g.tag, Items(xs + [g.data]));
    }
  }

  /** A tag name made of tag characters is truthy exactly when it is not empty. */
  lemma {:induction false} TagNameTruthy(line: string)
    requires IsTagLine(line) && TagOf(line) != ""
    ensures Truthy(TagOf(line))
  {
    var t := TagOf(line);
    assert IsTagChar(t[0]);
  }

  lemma {:induction false} StepKeepsDescription(g: Grouping, text: string, raw: string)
    requires DescriptionKept(g, text) && GroupStep(g, raw).Some?
    requires IsTagLine(Trim(raw)) ==> TagOf(Trim(raw)) != ""
    ensures DescriptionKept(GroupStep(g, raw).value, text)
  {
    var line := Trim(raw);
    if IsTagLine(line) {
      FlushKeepsDescription(g, text);
      TagNameTruthy(line);
    }
  }

  /**
   * From the first tag line `k` on, when every tag line names its tag, the
   * description stays the text of the lines before `k`.
   */
  lemma {:induction false} FoldKeepsDescription(ls: seq<string>, k: nat, n: nat)
    requires k < n <= |ls|
    requires forall i :: 0 <= i < k ==> !IsTagLine(Trim(ls[i]))
    requires IsTagLine(Trim(ls[k])) && TagOf(Trim(ls[k])) != ""
    requires forall i :: k < i < n && IsTagLine(Trim(ls[i])) ==> TagOf(Trim(ls[i])) != ""
    ensures Fold(ls, n, GroupStep).Some? ==> DescriptionKept(Fold(ls, n, GroupStep).value, JoinWords(ls, k))
    decreases n
  {
    if n == k + 1 {
      FirstTagKeepsDescription(ls, k);
    } else {
      FoldKeepsDescription(ls, k, n - 1);
      var f := Fold(ls, n - 1, GroupStep);
      if f.Some? && Fold(ls, n, GroupStep).Some? {
        assert Fold(ls, n, GroupStep) == GroupStep(f.value, ls[n - 1]);
        StepKeepsDescription(f.value, JoinWords(ls, k), ls[n - 1]);
      }
    }
  }

  /** The first tag line stores the untagged text before it as the description and opens its tag. */
  lemma {:induction false} FirstTagKeepsDescription(ls: seq<string>, k: nat)
    requires k < |ls|
    requires forall i :: 0 <= i < k ==> !IsTagLine(Trim(ls[i]))
    requires IsTagLine(Trim(ls[k])) && TagOf(Trim(ls[k])) != ""
    ensures Fold(ls, k + 1, GroupStep).Some? ==> DescriptionKept(Fold(ls, k + 1, GroupStep).value, JoinWords(ls, k))
  {
    var j := JoinWords(ls, k);
    UntaggedFold(ls, k);
    FlushDescription(j);
    TagNameTruthy(Trim(ls[k]));
    assert Fold(ls, k + 1, GroupStep) == GroupStep(Grouping([], "", j), ls[k]);
  }

  /**
   * A docblock whose tag lines all name their tag: the description is the
   * text before the first tag line, trimmed and joined with single spaces,
   * and it comes first.
   */
  lemma {:induction false} ParseDescriptionBeforeTags(s: string, k: nat)
    requires DocLines(s).Some? && ParseSpec(s).Some?
    requires var ls := DocLines(s).value;
             k < |ls| && IsTagLine(Trim(ls[k])) && (forall i :: 0 <= i < k ==> !IsTagLine(Trim(ls[i]))) &&
             (forall i :: k <= i < |ls| && IsTagLine(Trim(ls[i])) ==> TagOf(Trim(ls[i])) != "")
    ensures var ls := DocLines(s).value;
            ParseSpec(s).value != [] && ParseSpec(s).value[0] == (KStr("description"), Str(JoinWords(ls, k)))
  {
    var ls := DocLines(s).value;
    FoldKeepsDescription(ls, k, |ls|);
    var g := Fold(ls, |ls|, GroupStep).value;
    FlushKeepsDescription(g, JoinWords(ls, k));
  }

  /** A word line: trimmed, not empty and not a tag line. */
  predicate IsWordLine(w: string)
  {
    w != "" && IsTrimmedText(w) && !IsTagLine(w)
  }

  lemma {:induction false} TrimWordLine(w: string)
    requires IsTrimmedText(w)
    ensures Trim(w) == w
  {
    TrimStartOfTrimmed(w);
    TrimEndOfTrimmed(w);
  }

  /** A bare `@` line closes the description and opens a tag with an empty name. */
  lemma {:induction false} BareTagStep(d: string)
    requires IsWordLine(d)
    ensures GroupStep(Grouping([], "", d), "@") == Some(Grouping([("description", Text(d))], "", "@"))
  {
    BareTagLine();
    FlushDescription(d);
  }

  /** The line `@` is a tag line with an empty name, and its item text is `@`. */
  lemma {:induction false} BareTagLine()
    ensures Trim("@") == "@" && IsTagLine("@") && TagOf("@") == "" && Trim("" + " " + "@") == "@"
  {
    TrimWordLine("@");
    TrimJoin("", "@");
    assert "@"[1..] == "";
  }

  /** With no tag open, a word line is added to the current item. */
  lemma {:induction false} UnnamedItemStep(tags: seq<(string, Raw)>, x: string)
    requires IsWordLine(x)
    ensures GroupStep(Grouping(tags, "", "@"), x) == Some(Grouping(tags, "", "@ " + x))
  {
    TrimWordLine(x);
    TrimJoin("@", x);
    assert "@" + " " + x == "@ " + x;
  }

  /** The groupings the lines `d`, `@`, `x` pass through. */
  lemma {:induction false} UnnamedTagFold(d: string, x: string)
    requires IsWordLine(d) && IsWordLine(x)
    ensures Fold([d, "@", x], 3, GroupStep) == Some(Grouping([("description", Text(d))], "", "@ " + x))
  {
    var ls := [d, "@", x];
    var desc: seq<(string, Raw)> := [("description", Text(d))];
    var gs := [Initial, Grouping([], "", d), Grouping(desc, "", "@"), Grouping(desc, "", "@ " + x)];
    assert GroupStep(gs[0], ls[0]) == Some(gs[1]) by {
      TrimWordLine(d);
      UntaggedStep("", d);
    }
    assert GroupStep(gs[1], ls[1]) == Some(gs[2]) by {
      BareTagStep(d);
    }
    assert GroupStep(gs[2], ls[2]) == Some(gs[3]) by {
      UnnamedItemStep(desc, x);
    }
    FoldTrack(ls, 3, GroupStep, gs);
  }

  /** A flush with no tag open replaces the stored description. */
  lemma {:induction false} UnnamedFlush(d: string, t: string)
    ensures Flush([("description", Text(d))], "", t) == Some([("description", Text(t))])
  {
    var desc: seq<(string, Raw)> := [("description", Text(d))];
    assert !Truthy("");
    assert desc[..0] == [];
    assert Find(desc, "description") == Some(0);
    assert Put(desc, "description", Text(t)) == desc[0 := ("description", Text(t))];
    assert desc[0 := ("description", Text(t))] == [("description", Text(t))];
    assert Flush(desc, "", t) == Some(Put(desc, "description", Text(t)));
  }

  /**
   * A tag line whose name is empty (`@` alone) leaves no tag open, so the
   * final flush writes the description again: the text before the tag is
   * lost and the item after it takes its place.
   */
  lemma {:induction false} UnnamedTagOverwritesDescription(d: string, x: string)
    requires IsWordLine(d) && IsWordLine(x)
    ensures GroupedTags([d, "@", x]) == Some([("description", Text("@ " + x))])
  {
    UnnamedTagFold(d, x);
    UnnamedFlush(d, "@ " + x);
  }

  /** Skipping blanks from `from` where one space comes before `rest`. */
  lemma {:induction false} SkipOneBlank(s: string, from: nat, rest: string)
    requires from <= |s| && s[from..] == " " + rest && (rest == "" || !IsSpace(rest[0]))
    ensures AfterBlanks(s, from) == rest
  {
    SpanConcat(" ", rest, IsSpace);
  }

  /** The greedy run of `p` over `x + rest` is `x` when `rest` starts outside `p`. */
  lemma {:induction false} RunOf(x: string, rest: string, p: char -> bool)
    requires forall i :: 0 <= i < |x| ==> p(x[i])
    requires rest == "" || !p(rest[0])
    ensures Span(x + rest, p) == |x| && (x + rest)[..|x|] == x && (x + rest)[|x|..] == rest
  {
    SpanConcat(x, rest, p);
  }

  /** A well-formed `@url` item gives back its url. */
  lemma {:induction false} UrlItemOf(u: string)
    requires u != "" && !IsSpace(u[0])
    ensures UrlItem("@url " + u) == Fields(["url"], [u])
  {
    var item := "@url " + u;
    assert item[..4] == "@url";
    SkipOneBlank(item, 4, u);
  }

  /** The type word of an item and what follows it, after the tag and its blanks. */
  lemma {:induction false} TypeThenRest(item: string, from: nat, ty: string, rest: string)
    requires from <= |item| && item[from..] == " " + ty + " " + rest
    requires ty != "" && forall i :: 0 <= i < |ty| ==> IsTypeChar(ty[i])
    requires rest == "" || !IsSpace(rest[0])
    ensures var a := AfterBlanks(item, from); a[..Span(a, IsTypeChar)] == ty && AfterBlanks(a, |ty|) == rest
  {
    var t := ty + " " + rest;
    assert item[from..] == " " + t;
    assert IsTypeChar(ty[0]);
    SkipOneBlank(item, from, t);
    TypeWord(ty, rest);
  }

  /** The type word at the head of `ty + " " + rest` and the text after the blank. */
  lemma {:induction false} TypeWord(ty: string, rest: string)
    requires forall i :: 0 <= i < |ty| ==> IsTypeChar(ty[i])
    requires rest == "" || !IsSpace(rest[0])
    ensures var t := ty + " " + rest; t[..Span(t, IsTypeChar)] == ty && AfterBlanks(t, |ty|) == rest
  {
    var t := ty + " " + rest;
    assert t == ty + (" " + rest);
    RunOf(ty, " " + rest, IsTypeChar);
    SkipOneBlank(t, |ty|, rest);
  }

  /** A well-formed `@return` item gives back its type and description. */
  lemma {:induction false} ReturnItemOf(ty: string, desc: string)
    requires ty != "" && forall i :: 0 <= i < |ty| ==> IsTypeChar(ty[i])
    requires desc == "" || !IsSpace(desc[0])
    ensures ReturnItem("@return " + ty + " " + desc) == Fields(["type", "description"], [ty, desc])
  {
    var item := "@return " + ty + " " + desc;
    assert item[..7] == "@return";
    assert item[7..] == " " + ty + " " + desc;
    TypeThenRest(item, 7, ty, desc);
  }

  /** A well-formed `@param` item gives back its type, name and description. */
  lemma {:induction false} ParamItemOf(ty: string, name: string, desc: string)
    requires ty != "" && forall i :: 0 <= i < |ty| ==> IsTypeChar(ty[i])
    requires forall i :: 0 <= i < |name| ==> IsTagChar(name[i])
    requires desc == "" || !IsSpace(desc[0])
    ensures ParamItem("@param " + ty + " $" + name + " " + desc) == Fields(["type", "name", "description"], [ty, name, desc])
  {
    var item := "@param " + ty + " $" + name + " " + desc;
    var b := "$" + name + " " + desc;
    assert item[..6] == "@param";
    assert item[6..] == " " + ty + " " + b;
    TypeThenRest(item, 6, ty, b);
    NameWord(name, desc);
    ParamItemParts(item, ty, name, desc);
  }

  /** `ParamItem` once its three pieces are located. */
  lemma {:induction false} ParamItemParts(item: string, ty: string, name: string, desc: string)
    requires StartsWithText(item, "@param")
    requires var a := AfterBlanks(item, 6); a[..Span(a, IsTypeChar)] == ty && AfterBlanks(a, |ty|) == "$" + name + " " + desc
    requires var b := "$" + name + " " + desc; b[1..1 + Span(b[1..], IsTagChar)] == name && AfterBlanks(b, 1 + |name|) == desc
    ensures ParamItem(item) == Fields(["type", "name", "description"], [ty, name, desc])
  {
    var a := AfterBlanks(item, 6);
    var b := AfterBlanks(a, |ty|);
    assert b == "$" + name + " " + desc;
    assert b[0] == '$';
    assert b[1..1 + Span(b[1..], IsTagChar)] == name;
  }

  /** The variable name after the `$` of `"$" + name + " " + desc` and the text after the blank. */
  lemma {:induction false} NameWord(name: string, desc: string)
    requires forall i :: 0 <= i < |name| ==> IsTagChar(name[i])
    requires desc == "" || !IsSpace(desc[0])
    ensures var b := "$" + name + " " + desc;
            b[1..1 + Span(b[1..], IsTagChar)] == name && AfterBlanks(b, 1 + |name|) == desc
  {
    var b := "$" + name + " " + desc;
    assert b[1..] == name + (" " + desc);
    RunOf(name, " " + desc, IsTagChar);
    assert b[1 + |name|..] == " " + desc;
    SkipOneBlank(b, 1 + |name|, desc);
  }

  // ---------------------------------------------------------------------------
  // properties of fill

  /** Declared parameters have distinct names, and distinct names once the one-letter prefix is dropped. */
  predicate DistinctNames(ps: seq<Param>)
  {
    UniqueNames(ps) && forall i, j :: 0 <= i < j < |ps| ==> ArgumentName(ps[i].name) != ArgumentName(ps[j].name)
  }

  /** No two declared parameters share a name. */
  predicate UniqueNames(ps: seq<Param>)
  {
    forall i, j :: 0 <= i < j < |ps| ==> ps[i].name != ps[j].name
  }

  lemma {:induction false} ParamsByNameGet(ps: seq<Param>, n: nat, j: nat)
    requires j < n <= |ps| && UniqueNames(ps)
    ensures Get(ParamsByName(ps, n), ps[j].name) == Some(ps[j])
  {
    if j < n - 1 {
      assert ps[j].name != ps[n - 1].name;
      ParamsByNameGet(ps, n - 1, j);
    }
    GetAfterPut(ParamsByName(ps, n - 1), ps[n - 1].name, ps[n - 1], ps[j].name, ps[j]);
  }

  /** Reading back after a write: the written value under the written key, the old value elsewhere. */
  lemma {:induction false} GetAfterPut<V>(prev: seq<(string, V)>, k: string, v: V, k': string, expected: V)
    requires k' == k ==> v == expected
    requires k' != k ==> Get(prev, k') == Some(expected)
    ensures Get(Put(prev, k, v), k') == Some(expected)
  {
    PutGet(prev, k, v, k');
  }

  /**
   * The record of an undocumented parameter: its type from the declaration,
   * the capture marker, `required`, and the compact default when it is optional.
   */
  function UndocumentedRecord(p: Param, matches: Option<seq<string>>, c: nat): Value
  {
    Arr([(KStr("type"), Str(if p.isArray then "array" else "mixed"))] + FromRegex(matches, c) +
        [(KStr("required"), Bool(!p.optional))] +
        (if p.optional then [(KStr("default"), Str(Compact(p.default)))] else []))
  }

  function UndocumentedRecords(ps: seq<Param>, matches: Option<seq<string>>, n: nat): (r: seq<(Key, Value)>)
    requires n <= |ps|
    ensures |r| == n
    ensures forall i :: 0 <= i < n ==> r[i].0 == KStr(ArgumentName(ps[i].name))
  {
    if n == 0 then [] else UndocumentedRecords(ps, matches, n - 1) + [(KStr(ArgumentName(ps[n - 1].name)), UndocumentedRecord(ps[n - 1], matches, n - 1))]
  }

  /** The synthesised entry names the parameter and gives the record of an undocumented one. */
  lemma {:induction false} SynthesizedRecord(p: Param, matches: Option<seq<string>>, c: nat)
    ensures Lookup(SynthesizedParam(p).entries, "name") == Str(p.name)
    ensures ParamRecord(SynthesizedParam(p), p, matches, c) == UndocumentedRecord(p, matches, c)
  {
    var es := SynthesizedParam(p).entries;
    assert Find(es, KStr("name")) == Some(0);
    assert Find(es, KStr("type")) == Some(1);
    SqueezeExport(p.default, 1);
  }

  /** A synthesised entry of a declared parameter binds that parameter's undocumented record. */
  lemma {:induction false} BindSynthesized(p: Param, byName: seq<(string, Param)>, matches: Option<seq<string>>, b: Binding)
    requires Get(byName, p.name) == Some(p)
    ensures BindStep(b, SynthesizedParam(p), byName, matches) ==
            Binding(Put(b.parameters, KStr(ArgumentName(p.name)), UndocumentedRecord(p, matches, b.c)), b.c + 1)
  {
    SynthesizedRecord(p, matches, b.c);
  }

  /** The argument name of parameter `m` is not yet a key of the records before it. */
  lemma {:induction false} RecordKeyFresh(ps: seq<Param>, matches: Option<seq<string>>, m: nat)
    requires m < |ps| && DistinctNames(ps)
    ensures forall j :: 0 <= j < m ==> UndocumentedRecords(ps, matches, m)[j].0 != KStr(ArgumentName(ps[m].name))
  {
    var prev := UndocumentedRecords(ps, matches, m);
    forall j | 0 <= j < m ensures prev[j].0 != KStr(ArgumentName(ps[m].name)) {
      assert prev[j].0 == KStr(ArgumentName(ps[j].name));
    }
  }

  lemma {:induction false} BindUndocumented(ps: seq<Param>, matches: Option<seq<string>>, n: nat)
    requires n <= |ps| && DistinctNames(ps)
    ensures BindAll(Synthesized(ps), n, ParamsByName(ps, |ps|), matches) == Binding(UndocumentedRecords(ps, matches, n), n)
  {
    if n > 0 {
      BindUndocumented(ps, matches, n - 1);
      var p := ps[n - 1];
      var byName := ParamsByName(ps, |ps|);
      var prev := UndocumentedRecords(ps, matches, n - 1);
      var key := KStr(ArgumentName(p.name));
      var rec := UndocumentedRecord(p, matches, n - 1);
      assert Synthesized(ps)[n - 1] == SynthesizedParam(p);
      assert BindAll(Synthesized(ps), n, byName, matches) == BindStep(Binding(prev, n - 1), SynthesizedParam(p), byName, matches);
      ParamsByNameGet(ps, |ps|, n - 1);
      BindSynthesized(p, byName, matches, Binding(prev, n - 1));
      RecordKeyFresh(ps, matches, n - 1);
      PutNew(prev, key, rec);
    }
  }

  /**
   * Without `@param` tags, every declared parameter is described from its
   * declaration, in declaration order, keyed by its argument name.
   */
  lemma {:induction false} FillUndocumented(doc: seq<(Key, Value)>, ps: seq<Param>, matches: Option<seq<string>>)
    requires !IsSet(doc, "param") && DistinctNames(ps)
    ensures FillSpec(doc, ps, matches)[0] == (KStr("parameters"), Arr(UndocumentedRecords(ps, matches, |ps|)))
  {
    SynthesizedItems(doc, ps);
    BindUndocumented(ps, matches, |ps|);
  }

  /** The items of a list that is stored under `param` are its values, in order. */
  lemma {:induction false} ListItems(xs: seq<Value>)
    ensures var es := List(xs).entries; (if es != [] && es[0].0.KStr? then [Arr(es)] else Values(es)) == xs
  {
    var es := List(xs).entries;
    assert Values(es) == xs;
  }

  /** Without `@param` tags, the second `foreach` visits the synthesised entries. */
  lemma {:induction false} SynthesizedItems(doc: seq<(Key, Value)>, ps: seq<Param>)
    requires !IsSet(doc, "param")
    ensures DocParamItems(WithParams(doc, ps)) == Synthesized(ps)
  {
    if ps != [] {
      var d := WithParams(doc, ps);
      PutGet(doc, KStr("param"), List(Synthesized(ps)), KStr("param"));
      assert Lookup(d, "param") == List(Synthesized(ps));
      ListItems(Synthesized(ps));
    } else {
      assert Synthesized(ps) == [];
    }
  }

  /** A docblock without `@return` is described as returning `mixed`. */
  lemma {:induction false} FillReturnDefault(doc: seq<(Key, Value)>, ps: seq<Param>, matches: Option<seq<string>>)
    requires !IsSet(doc, "return")
    ensures FillSpec(doc, ps, matches)[1] == (KStr("return"), Arr([(KStr("type"), Str("mixed"))]))
  {
    if !IsSet(doc, "param") && ps != [] {
      PutGet(doc, KStr("param"), List(Synthesized(ps)), KStr("return"));
    }
  }
}
