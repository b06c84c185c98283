/**
 * The pieces of the PHP runtime the dispatcher leans on: optional values,
 * ordered arrays (PHP's "array", a sequence of key/value pairs in insertion
 * order), the value type of payloads and documents, and the string built-ins
 * (strpos, trim, strtolower, str_repeat, intval) restricted to ASCII.
 */
module Php {

  datatype Option<T> = None | Some(value: T)

  // ---------------------------------------------------------------------------
  // Values

  /** A PHP array key: integer or string. */
  datatype Key = KInt(n: int) | KStr(s: string)

  /** The values that travel through the dispatcher: scalars and ordered arrays. */
  datatype Value =
    | Null
    | Bool(b: bool)
    | Int(i: int)
    | Str(s: string)
    | Arr(entries: seq<(Key, Value)>)

  /** A list (keys 0, 1, 2, ...) of the given values, as PHP's `$a[] = v` builds it. */
  function List(items: seq<Value>): (r: Value)
    ensures r.Arr? && |r.entries| == |items|
    ensures forall i :: 0 <= i < |items| ==> r.entries[i] == (KInt(i), items[i])
  {
    Arr(seq(|items|, i requires 0 <= i < |items| => (KInt(i), items[i])))
  }

  // ---------------------------------------------------------------------------
  // Ordered arrays

  /** Index of the first pair whose key is `k`. */
  function Find<K(==), V>(a: seq<(K, V)>, k: K): (r: Option<nat>)
    ensures r.Some? ==> r.value < |a| && a[r.value].0 == k
    ensures r.Some? ==> forall j :: 0 <= j < r.value ==> a[j].0 != k
    ensures r.None? ==> forall j :: 0 <= j < |a| ==> a[j].0 != k
  {
    if a == [] then None
    else match Find(a[..|a| - 1], k)
      case Some(i) => Some(i)
      case None => if a[|a| - 1].0 == k then Some(|a| - 1) else None
  }

  /** `$a[$k] ?? null`: the value stored under `k`, if any. */
  function Get<K(==), V>(a: seq<(K, V)>, k: K): (r: Option<V>)
    ensures r.Some? <==> exists j :: 0 <= j < |a| && a[j].0 == k
  {
    match Find(a, k)
    case Some(i) => Some(a[i].1)
    case None => None
  }

  predicate HasKey<K(==), V>(a: seq<(K, V)>, k: K)
  {
    Find(a, k).Some?
  }

  /**
   * `$a[$k] = $v`: an existing key keeps its position and takes the new value,
   * a new key is appended at the end.
   */
  function Put<K(==), V>(a: seq<(K, V)>, k: K, v: V): (r: seq<(K, V)>)
  {
    match Find(a, k)
    case Some(i) => a[i := (k, v)]
    case None => a + [(k, v)]
  }

  function Keys<K, V>(a: seq<(K, V)>): (r: seq<K>)
    ensures |r| == |a| && forall i :: 0 <= i < |a| ==> r[i] == a[i].0
  {
    seq(|a|, i requires 0 <= i < |a| => a[i].0)
  }

  /** No key occurs twice: every PHP array satisfies this. */
  predicate UniqueKeys<K(==), V>(a: seq<(K, V)>)
  {
    forall i, j :: 0 <= i < j < |a| ==> a[i].0 != a[j].0
  }

  /** Where a key is found depends on the keys alone. */
  lemma {:induction false} FindByKeys<K, V>(a: seq<(K, V)>, b: seq<(K, V)>, k: K)
    requires |a| == |b| && forall j :: 0 <= j < |a| ==> a[j].0 == b[j].0
    ensures Find(a, k) == Find(b, k)
  {
  }

  /** The value under `k` is the one at the first position holding `k`. */
  lemma {:induction false} GetFirstAt<K, V>(a: seq<(K, V)>, k: K, i: nat)
    requires i < |a| && a[i].0 == k && forall j :: 0 <= j < i ==> a[j].0 != k
    ensures Get(a, k) == Some(a[i].1)
  {
    assert Find(a, k).Some?;
  }

  lemma {:induction false} PutGet<K, V>(a: seq<(K, V)>, k: K, v: V, k': K)
    ensures Get(Put(a, k, v), k') == if k' == k then Some(v) else Get(a, k')
  {
    var r := Put(a, k, v);
    match Find(a, k)
    case Some(i) =>
      FindByKeys(a, r, k');
    case None =>
      if k' == k {
        assert Find(r, k') == Some(|a|) by { assert r[..|r| - 1] == a; }
      } else {
        assert r[..|r| - 1] == a;
        assert Find(r, k') == Find(a, k');
      }
  }

  lemma {:induction false} PutKeys<K, V>(a: seq<(K, V)>, k: K, v: V)
    ensures HasKey(a, k) ==> Keys(Put(a, k, v)) == Keys(a)
    ensures !HasKey(a, k) ==> Keys(Put(a, k, v)) == Keys(a) + [k]
    ensures UniqueKeys(a) ==> UniqueKeys(Put(a, k, v))
  {
  }

  /** `array_reverse($a, true)`: the pairs in reverse order, keys preserved. */
  function Reverse<T>(s: seq<T>): (r: seq<T>)
    ensures |r| == |s|
    ensures forall i :: 0 <= i < |s| ==> r[i] == s[|s| - 1 - i]
  {
    if s == [] then [] else [s[|s| - 1]] + Reverse(s[..|s| - 1])
  }

  lemma {:induction false} ReverseReverse<T>(s: seq<T>)
    ensures Reverse(Reverse(s)) == s
  {
  }

  /** `$a[$k] ?? null` for a string key. */
  function Lookup(a: seq<(Key, Value)>, k: string): (r: Value)
    ensures HasKey(a, KStr(k)) ==> r == a[Find(a, KStr(k)).value].1
    ensures !HasKey(a, KStr(k)) ==> r == Null
  {
    match Get(a, KStr(k))
    case Some(v) => v
    case None => Null
  }

  /** `isset($a[$k])`: the key is present and its value is not null. */
  predicate IsSet(a: seq<(Key, Value)>, k: string)
  {
    Lookup(a, k) != Null
  }

  /** Writing the same key twice keeps only the second value, at the first one's place. */
  lemma {:induction false} PutPut<K, V>(a: seq<(K, V)>, k: K, v: V, w: V)
    ensures Put(Put(a, k, v), k, w) == Put(a, k, w)
  {
    var b := Put(a, k, v);
    match Find(a, k)
    case Some(i) =>
      FindByKeys(a, b, k);
    case None =>
      assert b[..|b| - 1] == a;
      assert Find(b, k) == Some(|a|);
  }

  /** Writing a key never moves the first entry of a non-empty array; it changes it only under its own key. */
  lemma {:induction false} PutFirst<K, V>(a: seq<(K, V)>, k: K, v: V)
    requires a != []
    ensures Put(a, k, v) != []
    ensures Put(a, k, v)[0] == if a[0].0 == k then (k, v) else a[0]
  {
  }

  /** Writing a key that is not there appends it. */
  lemma {:induction false} PutNew<K, V>(a: seq<(K, V)>, k: K, v: V)
    requires forall j :: 0 <= j < |a| ==> a[j].0 != k
    ensures Put(a, k, v) == a + [(k, v)]
  {
  }

  // ---------------------------------------------------------------------------
  // Strings (ASCII)

  /** PHP truthiness of a string: only "" and "0" are false. */
  predicate Truthy(s: string)
  {
    s != "" && s != "0"
  }

  predicate IsLower(c: char) { 'a' <= c <= 'z' }
  predicate IsUpper(c: char) { 'A' <= c <= 'Z' }
  predicate IsDigit(c: char) { '0' <= c <= '9' }
  predicate IsAlpha(c: char) { IsLower(c) || IsUpper(c) }

  /** PCRE's `\s`: space, tab, line feed, vertical tab, form feed, carriage return. */
  predicate IsSpace(c: char)
  {
    c == ' ' || c == '\t' || c == '\n' || c == '\U{B}' || c == '\U{C}' || c == '\r'
  }

  /** The characters PHP's `trim` strips by default: " \t\n\r\0\x0B". */
  predicate IsTrimmed(c: char)
  {
    c == ' ' || c == '\t' || c == '\n' || c == '\r' || c == '\0' || c == '\U{B}'
  }

  function ToLowerChar(c: char): (r: char)
    ensures !IsUpper(r)
    ensures IsUpper(c) ==> IsLower(r)
    ensures !IsUpper(c) ==> r == c
  {
    if IsUpper(c) then (c as int + 32) as char else c
  }

  function ToUpperChar(c: char): (r: char)
    ensures !IsLower(r)
    ensures IsLower(c) ==> IsUpper(r)
    ensures !IsLower(c) ==> r == c
  {
    if IsLower(c) then (c as int - 32) as char else c
  }

  /** `strtolower` on ASCII text. */
  function Lower(s: string): (r: string)
    ensures |r| == |s|
    ensures forall i :: 0 <= i < |s| ==> r[i] == ToLowerChar(s[i])
  {
    seq(|s|, i requires 0 <= i < |s| => ToLowerChar(s[i]))
  }

  /** `strtoupper` on ASCII text. */
  function Upper(s: string): (r: string)
    ensures |r| == |s|
    ensures forall i :: 0 <= i < |s| ==> r[i] == ToUpperChar(s[i])
  {
    seq(|s|, i requires 0 <= i < |s| => ToUpperChar(s[i]))
  }

  /** `ltrim($s)`: without its leading stripped characters. */
  function TrimStart(s: string): (r: string)
    ensures r == [] || !IsTrimmed(r[0])
  {
    s[Span(s, IsTrimmed)..]
  }

  /** `rtrim($s)`: without its trailing stripped characters. */
  function TrimEnd(s: string): (r: string)
    ensures r == [] || !IsTrimmed(r[|r| - 1])
  {
    s[..|s| - SpanBack(s, IsTrimmed)]
  }

  /** `trim($s)`. */
  function Trim(s: string): (r: string)
    ensures |r| <= |s|
    ensures r == [] || (!IsTrimmed(r[0]) && !IsTrimmed(r[|r| - 1]))
  {
    TrimEnd(TrimStart(s))
  }

  /** Text that `trim` leaves as it is: empty, or not starting or ending with a stripped character. */
  predicate IsTrimmedText(s: string)
  {
    s == [] || (!IsTrimmed(s[0]) && !IsTrimmed(s[|s| - 1]))
  }

  lemma {:induction false} TrimResultTrimmed(s: string)
    ensures IsTrimmedText(Trim(s))
  {
  }

  lemma {:induction false} TrimEndAppendSpace(a: string)
    ensures TrimEnd(a + " ") == TrimEnd(a)
  {
    assert (a + " ")[..|a + " "| - 1] == a;
  }

  lemma {:induction false} TrimEndOfTrimmed(a: string)
    requires IsTrimmedText(a)
    ensures TrimEnd(a) == a
  {
  }

  lemma {:induction false} TrimStartOfTrimmed(a: string)
    requires IsTrimmedText(a)
    ensures TrimStart(a) == a
  {
  }

  /**
   * `trim($a . ' ' . $b)` of two trimmed texts joins them with one space,
   * and drops the space when either side is empty.
   */
  lemma {:induction false} TrimJoin(a: string, b: string)
    requires IsTrimmedText(a) && IsTrimmedText(b)
    ensures Trim(a + " " + b) == if a == "" then b else if b == "" then a else a + " " + b
  {
    var x := a + " " + b;
    if a == "" {
      assert x == " " + b;
      assert Span(x, IsTrimmed) == 1 + Span(b, IsTrimmed) by { assert x[1..] == b; }
      TrimStartOfTrimmed(b);
      TrimEndOfTrimmed(b);
    } else {
      assert TrimStart(x) == x by { assert x[0] == a[0]; }
      if b == "" {
        assert x == a + " ";
        TrimEndAppendSpace(a);
        TrimEndOfTrimmed(a);
      } else {
        assert x[|x| - 1] == b[|b| - 1];
        assert IsTrimmedText(x);
        TrimEndOfTrimmed(x);
      }
    }
  }

  /** Nothing but the characters `trim` strips. */
  predicate IsBlank(s: string)
  {
    forall i :: 0 <= i < |s| ==> IsTrimmed(s[i])
  }

  /** `trim($s) === ''` exactly when the text is blank. */
  lemma {:induction false} TrimEmpty(s: string)
    ensures Trim(s) == "" <==> IsBlank(s)
  {
    var t := TrimStart(s);
    SpanPrefix(s, IsTrimmed);
    if t != "" {
      assert SpanBack(t, IsTrimmed) < |t| by {
        assert !IsTrimmed(t[0]);
      }
    }
  }

  /** Leading characters of `s` that satisfy `p` (the greedy `[...]*` of a regex). */
  function Span(s: string, p: char -> bool): (n: nat)
    ensures n <= |s|
    ensures n == |s| || !p(s[n])
  {
    if s != [] && p(s[0]) then 1 + Span(s[1..], p) else 0
  }

  /** Every character of the run satisfies `p`. */
  lemma {:induction false} SpanPrefix(s: string, p: char -> bool)
    ensures forall i :: 0 <= i < Span(s, p) ==> p(s[i])
  {
    if s != [] && p(s[0]) {
      SpanPrefix(s[1..], p);
    }
  }

  /** Trailing characters of `s` that satisfy `p`. */
  function SpanBack(s: string, p: char -> bool): (n: nat)
    ensures n <= |s|
    ensures forall i :: |s| - n <= i < |s| ==> p(s[i])
    ensures n == |s| || !p(s[|s| - 1 - n])
  {
    if s != [] && p(s[|s| - 1]) then 1 + SpanBack(s[..|s| - 1], p) else 0
  }

  predicate OccursAt(h: string, n: string, i: nat)
  {
    i + |n| <= |h| && h[i..i + |n|] == n
  }

  /** `strpos($h, $n)` from offset `from`. */
  function StrPosFrom(h: string, n: string, from: nat): (r: Option<nat>)
    ensures r.Some? ==> from <= r.value && OccursAt(h, n, r.value)
    ensures r.Some? ==> forall j :: from <= j < r.value ==> !OccursAt(h, n, j)
    ensures r.None? ==> forall j :: from <= j ==> !OccursAt(h, n, j)
    decreases |h| - from
  {
    if from + |n| > |h| then None
    else if h[from..from + |n|] == n then Some(from)
    else StrPosFrom(h, n, from + 1)
  }

  /** `strpos($h, $n)`: the first position of `n` in `h` (PHP 8: "" occurs at 0). */
  function StrPos(h: string, n: string): (r: Option<nat>)
    ensures r.Some? ==> OccursAt(h, n, r.value)
    ensures r.Some? ==> forall j :: 0 <= j < r.value ==> !OccursAt(h, n, j)
    ensures r.None? ==> forall j :: 0 <= j ==> !OccursAt(h, n, j)
  {
    StrPosFrom(h, n, 0)
  }

  /** `strpos($h, $n) !== false`. */
  predicate Contains(h: string, n: string)
  {
    StrPos(h, n).Some?
  }

  /** `str_repeat($s, $n)` for a non-negative count. */
  function Repeat(s: string, n: nat): (r: string)
    ensures |r| == |s| * n
    ensures forall j :: 0 <= j < |r| ==> r[j] in s
  {
    if n == 0 then "" else Repeat(s, n - 1) + s
  }

  function DigitChar(d: nat): char
    requires d < 10
  {
    ('0' as int + d) as char
  }

  function NatToString(n: nat): (r: string)
    ensures |r| > 0
    ensures forall i :: 0 <= i < |r| ==> IsDigit(r[i])
  {
    if n < 10 then [DigitChar(n)] else NatToString(n / 10) + [DigitChar(n % 10)]
  }

  /** The decimal text PHP gives an integer in a string context. */
  function IntToString(i: int): (r: string)
    ensures |r| > 0
  {
    if i < 0 then "-" + NatToString(-i) else NatToString(i)
  }

  function DigitsValue(s: string): (v: nat)
    requires forall i :: 0 <= i < |s| ==> IsDigit(s[i])
  {
    if s == [] then 0 else
      var c := s[|s| - 1];
      assert IsDigit(c);
      10 * DigitsValue(s[..|s| - 1]) + (c as int - '0' as int)
  }

  /** The largest 64-bit integer, `PHP_INT_MAX`. */
  const PhpIntMax: int := 0x7FFF_FFFF_FFFF_FFFF

  /** The smallest 64-bit integer, `PHP_INT_MIN`. */
  const PhpIntMin: int := -0x8000_0000_0000_0000

  /** 2^1024 - 2^970: from this magnitude on, a decimal rounds to an infinite double. */
  const DoubleOverflow: int := 0xFFFF_FFFF_FFFF_FC00_0000_0000_0000_0000_0000_0000_0000_0000_0000_0000_0000_0000_0000_0000_0000_0000_0000_0000_0000_0000_0000_0000_0000_0000_0000_0000_0000_0000_0000_0000_0000_0000_0000_0000_0000_0000_0000_0000_0000_0000_0000_0000_0000_0000_0000_0000_0000_0000_0000_0000_0000_0000_0000_0000_0000_0000_0000_0000_0000_0000

  function Pow10(e: nat): (r: nat)
    ensures r >= 1
  {
    if e == 0 then 1 else 10 * Pow10(e - 1)
  }

  function Abs(i: int): nat { if i < 0 then -i else i }

  /** A decimal number: the value of `digits` times ten to the power `scale`. */
  datatype Decimal = Decimal(digits: string, scale: int)

  predicate AllDigits(s: string)
  {
    forall i :: 0 <= i < |s| ==> IsDigit(s[i])
  }

  /** The leading run of digits of `s`. */
  function DigitRun(s: string): (r: string)
    ensures r <= s && AllDigits(r)
    ensures r == s || !IsDigit(s[|r|])
  {
    SpanPrefix(s, IsDigit);
    s[..Span(s, IsDigit)]
  }

  /**
   * The exponent `strtod` reads at the start of `x`: `e` or `E`, an optional
   * sign and at least one digit; anything else is no exponent.
   */
  function ExponentOf(x: string): int
  {
    if x == [] || (x[0] != 'e' && x[0] != 'E') then 0
    else
      var y := x[1..];
      var neg := y != [] && y[0] == '-';
      var z := if y != [] && (y[0] == '-' || y[0] == '+') then y[1..] else y;
      var v: int := DigitsValue(DigitRun(z));
      if neg then -v else v
  }

  /**
   * The unsigned number at the start of `u`: digits, an optional point with
   * more digits, then an optional exponent. Without a digit before the
   * exponent there is no number, which reads as 0.
   */
  function ReadDecimal(u: string): (d: Decimal)
    ensures AllDigits(d.digits)
  {
    var whole := DigitRun(u);
    var rest := u[|whole|..];
    var pointed := rest != [] && rest[0] == '.';
    var frac := if pointed then DigitRun(rest[1..]) else [];
    if whole == [] && frac == [] then Decimal([], 0)
    else
      var after := if pointed then rest[1 + |frac|..] else rest;
      Decimal(whole + frac, ExponentOf(after) - |frac|)
  }

  /** The magnitude of a decimal, truncated toward zero. */
  function Truncate(d: Decimal): nat
    requires AllDigits(d.digits)
  {
    if d.scale >= 0 then DigitsValue(d.digits) * Pow10(d.scale)
    else Quotient(DigitsValue(d.digits), Pow10(-d.scale))
  }

  /** Division of naturals, which truncates. */
  function Quotient(a: nat, p: nat): nat
    requires p >= 1
  {
    QuotientNat(a, p);
    a / p
  }

  lemma {:induction false} QuotientNat(a: nat, p: nat)
    requires p >= 1
    ensures a / p >= 0
  {
  }

  /**
   * The integer PHP makes of a number it read with magnitude `t`: 0 when the
   * number is too large for a double (infinity), else the number clamped to
   * the 64-bit range.
   */
  function ToLong(neg: bool, t: nat): (r: int)
    ensures PhpIntMin <= r <= PhpIntMax
  {
    if t >= DoubleOverflow then 0
    else if neg then (if -(t as int) < PhpIntMin then PhpIntMin else -(t as int))
    else if t > PhpIntMax then PhpIntMax else t
  }

  /**
   * `intval` of a string (PHP 8): leading whitespace, an optional sign, then
   * the longest decimal number with fraction and exponent; what follows is
   * ignored, and no number gives 0. The number is truncated toward zero and
   * saturates at the 64-bit bounds.
   */
  function IntVal(s: string): (r: int)
    ensures PhpIntMin <= r <= PhpIntMax
  {
    var t := s[Span(s, IsSpace)..];
    var neg := t != [] && t[0] == '-';
    var u := if t != [] && (t[0] == '-' || t[0] == '+') then t[1..] else t;
    ToLong(neg, Truncate(ReadDecimal(u)))
  }

  lemma {:induction false} DigitsRoundTrip(n: nat)
    ensures DigitsValue(NatToString(n)) == n
  {
    if n >= 10 {
      DigitsRoundTrip(n / 10);
      var s := NatToString(n);
      assert s[..|s| - 1] == NatToString(n / 10);
    }
  }

  /** A text of digits alone reads as the number it spells. */
  lemma {:induction false} ReadDigits(u: string)
    requires u != [] && AllDigits(u)
    ensures ReadDecimal(u) == Decimal(u, 0)
  {
    assert Span(u, IsDigit) == |u| by { SpanAll(u, IsDigit); }
    assert u[..|u|] == u;
  }

  /** Digits alone, after no whitespace and no sign. */
  lemma {:induction false} IntValDigits(u: string)
    requires u != [] && AllDigits(u)
    ensures IntVal(u) == ToLong(false, DigitsValue(u))
  {
    assert Span(u, IsSpace) == 0 && u[0..] == u;
    ReadDigits(u);
  }

  /** A minus sign followed by digits. */
  lemma {:induction false} IntValMinusDigits(u: string)
    requires u != [] && AllDigits(u)
    ensures IntVal("-" + u) == ToLong(true, DigitsValue(u))
  {
    var s := "-" + u;
    assert Span(s, IsSpace) == 0 && s[0..] == s;
    assert s[0] == '-' && s[1..] == u;
    ReadDigits(u);
  }

  /**
   * `intval` of an integer's decimal text: the integer itself when it is a
   * 64-bit integer, the nearest bound beyond that, and 0 past the range of a
   * double.
   */
  lemma {:induction false} IntValOfText(i: int)
    ensures IntVal(IntToString(i)) == ToLong(i < 0, Abs(i))
    ensures PhpIntMin <= i <= PhpIntMax ==> IntVal(IntToString(i)) == i
    ensures PhpIntMax < i < DoubleOverflow ==> IntVal(IntToString(i)) == PhpIntMax
    ensures -DoubleOverflow < i < PhpIntMin ==> IntVal(IntToString(i)) == PhpIntMin
  {
    var t := Abs(i);
    assert IntVal(IntToString(i)) == ToLong(i < 0, t) by {
      if i < 0 {
        IntValMinusDigits(NatToString(t));
      } else {
        IntValDigits(NatToString(t));
      }
      DigitsRoundTrip(t);
    }
    ToLongSigned(i);
  }

  /** Reading back the magnitude and sign of `i`: `i` within 64 bits, the nearest bound beyond. */
  lemma {:induction false} ToLongSigned(i: int)
    ensures PhpIntMin <= i <= PhpIntMax ==> ToLong(i < 0, Abs(i)) == i
    ensures PhpIntMax < i < DoubleOverflow ==> ToLong(i < 0, Abs(i)) == PhpIntMax
    ensures -DoubleOverflow < i < PhpIntMin ==> ToLong(i < 0, Abs(i)) == PhpIntMin
  {
  }

  /** Digits written after others shift them by one place each. */
  lemma {:induction false} DigitsAppend(w: string, f: string)
    requires AllDigits(w) && AllDigits(f)
    ensures DigitsValue(w + f) == DigitsValue(w) * Pow10(|f|) + DigitsValue(f)
  {
    if f != [] {
      var g := f[..|f| - 1];
      assert (w + f)[..|w + f| - 1] == w + g;
      DigitsAppend(w, g);
      ShiftOnce(DigitsValue(w), Pow10(|g|), DigitsValue(g), f[|f| - 1] as int - '0' as int);
    } else {
      assert w + f == w;
    }
  }

  lemma {:induction false} ShiftOnce(a: int, p: int, b: int, d: int)
    ensures 10 * (a * p + b) + d == a * (10 * p) + (10 * b + d)
  {
  }

  /** `n` digits spell a number below ten to the `n`. */
  lemma {:induction false} DigitsBound(f: string)
    requires AllDigits(f)
    ensures DigitsValue(f) < Pow10(|f|)
  {
    if f != [] {
      DigitsBound(f[..|f| - 1]);
    }
  }

  /** The leading run of digits of digits followed by a non-digit. */
  lemma {:induction false} DigitRunStops(w: string, x: string)
    requires AllDigits(w) && (x == [] || !IsDigit(x[0]))
    ensures DigitRun(w + x) == w
  {
    SpanConcat(w, x, IsDigit);
    assert (w + x)[..|w|] == w;
  }

  /** The exponent `e`, followed by the decimal text of an integer. */
  lemma {:induction false} ExponentOfText(e: int)
    ensures ExponentOf("e" + IntToString(e)) == e
  {
    var x := "e" + IntToString(e);
    assert x[1..] == IntToString(e);
    var m := if e < 0 then -e else e;
    var z := NatToString(m);
    if e < 0 {
      assert IntToString(e)[1..] == z;
    }
    DigitRunStops(z, []);
    assert z + [] == z;
    DigitsRoundTrip(m);
  }

  /** Text that starts with a digit is read as an unsigned number. */
  lemma {:induction false} IntValUnsigned(u: string)
    requires u != [] && IsDigit(u[0])
    ensures IntVal(u) == ToLong(false, Truncate(ReadDecimal(u)))
  {
    assert Span(u, IsSpace) == 0 && u[0..] == u;
  }

  /** Digits `w` then an exponent `k` read as `w` scaled by ten to the `k`. */
  lemma {:induction false} ReadExponent(w: string, k: int)
    requires w != [] && AllDigits(w)
    ensures ReadDecimal(w + ("e" + IntToString(k))) == Decimal(w, k)
  {
    var x := "e" + IntToString(k);
    DigitRunStops(w, x);
    assert (w + x)[|w|..] == x;
    ExponentOfText(k);
  }

  /**
   * `intval` reads exponent notation as the number it denotes, truncated:
   * the digits of `m`, `e`, then the exponent `k`.
   */
  lemma {:induction false} IntValExponent(m: nat, k: int)
    ensures IntVal(NatToString(m) + "e" + IntToString(k)) ==
            ToLong(false, if k >= 0 then m * Pow10(k) else Quotient(m, Pow10(-k)))
  {
    var w := NatToString(m);
    var u := w + ("e" + IntToString(k));
    assert NatToString(m) + "e" + IntToString(k) == u;
    IntValUnsigned(u);
    ReadExponent(w, k);
    DigitsRoundTrip(m);
  }

  /** A negative exponent can truncate the number to 0: "1e-1" reads as 0. */
  lemma {:induction false} IntValSmallExponent()
    ensures IntVal("1e-1") == 0
  {
    IntValExponent(1, -1);
    assert NatToString(1) + "e" + IntToString(-1) == "1e-1";
    assert Pow10(1) == 10;
  }

  /** Digits `w`, a point and digits `f` read as `w` and `f` together, scaled down by `f`'s length. */
  lemma {:induction false} ReadFraction(w: string, f: string)
    requires w != [] && AllDigits(w) && AllDigits(f)
    ensures ReadDecimal(w + ("." + f)) == Decimal(w + f, -|f|)
  {
    var u := w + ("." + f);
    DigitRunStops(w, "." + f);
    var rest := u[|w|..];
    assert rest == "." + f && rest[1..] == f;
    DigitRunStops(f, []);
    assert f + [] == f;
    assert rest[1 + |f|..] == [];
  }

  /** Truncating digits `w` and `f` scaled down by `f`'s length leaves the value of `w`. */
  lemma {:induction false} TruncateFraction(w: string, f: string)
    requires AllDigits(w) && AllDigits(f)
    ensures Truncate(Decimal(w + f, -|f|)) == DigitsValue(w)
  {
    DigitsAppend(w, f);
    DigitsBound(f);
    var p := Pow10(|f|);
    DivShift(DigitsValue(w), p, DigitsValue(f));
  }

  lemma {:induction false} DivShift(a: nat, p: nat, b: nat)
    requires b < p
    ensures Quotient(a * p + b, p) == a
  {
    var n := a * p + b;
    var q := n / p;
    assert n == q * p + n % p && 0 <= n % p < p;
    StepBelow(q, a, p);
    StepBelow(a, q, p);
  }

  /** A smaller factor gives a product smaller by at least `p`. */
  lemma {:induction false} StepBelow(x: int, y: int, p: nat)
    ensures x < y ==> x * p + p <= y * p
  {
    if x < y {
      var d: nat := y - x - 1;
      assert y * p == x * p + p + d * p;
      assert d * p >= 0;
    }
  }

  /** `intval` drops the fraction of a decimal: digits `w`, a point, digits `f`. */
  lemma {:induction false} IntValFraction(w: string, f: string)
    requires w != [] && AllDigits(w) && AllDigits(f)
    ensures IntVal(w + "." + f) == ToLong(false, DigitsValue(w))
  {
    var u := w + ("." + f);
    assert w + "." + f == u;
    IntValUnsigned(u);
    ReadFraction(w, f);
    TruncateFraction(w, f);
  }

  /** The greedy run over `x + y` stops at the end of `x` when `x` is all in and `y` starts outside. */
  lemma {:induction false} SpanConcat(x: string, y: string, p: char -> bool)
    requires forall i :: 0 <= i < |x| ==> p(x[i])
    requires y == [] || !p(y[0])
    ensures Span(x + y, p) == |x|
  {
    if x != [] {
      assert (x + y)[1..] == x[1..] + y;
      SpanConcat(x[1..], y, p);
    }
  }

  lemma {:induction false} SpanAll(s: string, p: char -> bool)
    requires forall i :: 0 <= i < |s| ==> p(s[i])
    ensures Span(s, p) == |s|
  {
    if s != [] { SpanAll(s[1..], p); }
  }
}
