/**
 * `Abigail\Client`: the HTTP side of a request. It resolves the method
 * (`getMethod`), negotiates the output format and strips a format suffix
 * from the URL (`setupFormats`), and sends an envelope with `status` as its
 * first key (`sendResponse`). The superglobals it reads are passed in as an
 * `Incoming` value; `json_encode` is a parameter.
 */
module Clients {
  import opened Php
  import opened Model
  import opened Responses
  import Json
  import Xml
  import Inspector

  /** `$methods`: the methods `getMethod` accepts. */
  const Methods: seq<string> := ["get", "post", "put", "delete", "head", "options", "patch"]

  /** The keys of `$outputFormats`, in their order. */
  const OutputFormats: seq<string> := ["json", "xml"]

  /**
   * What the client reads from the request: `PATH_INFO`, `HTTP_ACCEPT`,
   * `HTTP_X_HTTP_METHOD_OVERRIDE` and `REQUEST_METHOD` of `$_SERVER`, and
   * `$_GET` and `$_POST`.
   */
  datatype Incoming = Incoming(
    pathInfo: Option<string>,
    accept: Option<string>,
    methodOverride: Option<string>,
    requestMethod: Option<string>,
    query: seq<(string, Value)>,
    form: seq<(string, Value)>)

  /** PHP truthiness of a value. */
  predicate ValueTruthy(v: Value)
  {
    match v
    case Null => false
    case Bool(b) => b
    case Int(i) => i != 0
    case Str(s) => Truthy(s)
    case Arr(es) => es != []
  }

  // ---------------------------------------------------------------------------
  // getMethod

  /**
   * The requested method before normalisation, by precedence: `_method` of
   * the query, `_method` of the form, the override header, `REQUEST_METHOD`;
   * None when none is set.
   */
  function RequestedMethod(env: Incoming): Option<Value>
  {
    if Inspector.QueryValue(env.query, "_method").Some? then Inspector.QueryValue(env.query, "_method")
    else if Inspector.QueryValue(env.form, "_method").Some? then Inspector.QueryValue(env.form, "_method")
    else if env.methodOverride.Some? then Some(Str(env.methodOverride.value))
    else if env.requestMethod.Some? then Some(Str(env.requestMethod.value))
    else None
  }

  /** Lower-cased, and "get" when not one of the accepted methods. */
  function NormalizeMethod(s: string): (r: string)
  {
    if Lower(s) in Methods then Lower(s) else "get"
  }

  /**
   * `getMethod`: a method set with `setMethod` (when truthy) verbatim;
   * otherwise the requested method, normalised. None where `strtolower`
   * raises a TypeError under strict types: nothing requested, or an array.
   */
  function ResolvedMethod(custom: string, env: Incoming): Option<string>
  {
    if Truthy(custom) then Some(custom)
    else match RequestedMethod(env)
      case Some(Str(s)) => Some(NormalizeMethod(s))
      case _ => None
  }

  /** A custom method is returned as set, neither lower-cased nor checked. */
  lemma {:induction false} CustomMethodVerbatim(custom: string, env: Incoming)
    requires Truthy(custom)
    ensures ResolvedMethod(custom, env) == Some(custom)
  {
  }

  /** Without a custom method the result is always one of the accepted methods. */
  lemma {:induction false} ResolvedIsAccepted(custom: string, env: Incoming)
    requires !Truthy(custom) && ResolvedMethod(custom, env).Some?
    ensures ResolvedMethod(custom, env).value in Methods
  {
  }

  /** An accepted method in any letter case resolves to its lower-case form; anything else to "get". */
  lemma {:induction false} NormalizeMethodSpec(s: string)
    ensures Lower(s) in Methods ==> NormalizeMethod(s) == Lower(s)
    ensures Lower(s) !in Methods ==> NormalizeMethod(s) == "get"
    ensures NormalizeMethod(s) in Methods
  {
  }

  /** "DELETE" and "Patch" resolve to their methods, "TRACE" to "get". */
  lemma {:induction false} NormalizeMethodExamples()
    ensures NormalizeMethod("DELETE") == "delete"
    ensures NormalizeMethod("Patch") == "patch"
    ensures NormalizeMethod("TRACE") == "get"
  {
    assert Lower("DELETE") == "delete";
    assert Lower("Patch") == "patch";
    assert Lower("TRACE") == "trace";
  }

  /** `_method` in the query decides alone: the form, the override header and the server's method do not matter. */
  lemma {:induction false} QueryMethodWins(custom: string, env: Incoming, env': Incoming)
    requires !Truthy(custom) && Inspector.QueryValue(env.query, "_method").Some? && env'.query == env.query
    ensures ResolvedMethod(custom, env) == ResolvedMethod(custom, env')
  {
  }

  /** Without any `_method`, the override header decides over the server's method. */
  lemma {:induction false} OverrideWins(custom: string, env: Incoming, m: string)
    requires !Truthy(custom) && Inspector.QueryValue(env.query, "_method").None? && Inspector.QueryValue(env.form, "_method").None?
    requires env.methodOverride == Some(m)
    ensures ResolvedMethod(custom, env) == Some(NormalizeMethod(m))
  {
  }

  /** The TypeError cases: nothing requested, or a `_method` that is not a string. */
  lemma {:induction false} ResolveFails(custom: string, env: Incoming)
    ensures ResolvedMethod(custom, env).None? <==>
            !Truthy(custom) && (RequestedMethod(env).None? || !RequestedMethod(env).value.Str?)
  {
  }

  // ---------------------------------------------------------------------------
  // setupFormats

  /** The URL and the output format. */
  datatype Negotiation = Negotiation(url: string, format: string)

  /** The first format, in `$outputFormats` order, occurring in `accept`; `fmt` when none does. */
  function FirstContained(accept: string, formats: seq<string>, fmt: string): (r: string)
    ensures r == fmt || (r in formats && Contains(accept, r))
  {
    if formats == [] then fmt
    else if Contains(accept, formats[0]) then formats[0]
    else FirstContained(accept, formats[1..], fmt)
  }

  /**
   * The Accept loop stops at the first format, in `$outputFormats` order,
   * that the header contains, and keeps `fmt` when it contains none.
   */
  lemma {:induction false} FirstContainedIsFirst(accept: string, formats: seq<string>, fmt: string)
    ensures (forall i :: 0 <= i < |formats| ==> !Contains(accept, formats[i])) ==> FirstContained(accept, formats, fmt) == fmt
    ensures (exists i :: 0 <= i < |formats| && Contains(accept, formats[i])) ==>
            exists i :: 0 <= i < |formats| && FirstContained(accept, formats, fmt) == formats[i] && Contains(accept, formats[i]) &&
                        forall j :: 0 <= j < i ==> !Contains(accept, formats[j])
  {
    if forall i :: 0 <= i < |formats| ==> !Contains(accept, formats[i]) {
      NoneContained(accept, formats, fmt);
    } else {
      var k := FirstContainedAt(accept, formats, fmt);
    }
  }

  /** With no format in the header, the loop keeps `fmt`. */
  lemma {:induction false} NoneContained(accept: string, formats: seq<string>, fmt: string)
    requires forall i :: 0 <= i < |formats| ==> !Contains(accept, formats[i])
    ensures FirstContained(accept, formats, fmt) == fmt
  {
    if formats != [] {
      var tail := formats[1..];
      assert forall i :: 0 <= i < |tail| ==> !Contains(accept, tail[i]) by {
        forall i | 0 <= i < |tail| ensures !Contains(accept, tail[i]) {
          assert tail[i] == formats[i + 1];
        }
      }
      NoneContained(accept, tail, fmt);
    }
  }

  /** With some format in the header, the loop picks the one at the first such index `k`. */
  lemma {:induction false} FirstContainedAt(accept: string, formats: seq<string>, fmt: string) returns (k: nat)
    requires exists i :: 0 <= i < |formats| && Contains(accept, formats[i])
    ensures k < |formats| && FirstContained(accept, formats, fmt) == formats[k] && Contains(accept, formats[k])
    ensures forall j :: 0 <= j < k ==> !Contains(accept, formats[j])
  {
    if Contains(accept, formats[0]) {
      k := 0;
    } else {
      var tail := formats[1..];
      var i :| 0 <= i < |formats| && Contains(accept, formats[i]);
      assert tail[i - 1] == formats[i];
      var k' := FirstContainedAt(accept, tail, fmt);
      k := k' + 1;
      forall j | 0 < j < k ensures !Contains(accept, formats[j]) {
        assert formats[j] == tail[j - 1];
      }
      assert formats[k] == tail[k'];
    }
  }


  /** A header naming xml but not json picks xml. */
  lemma {:induction false} AcceptXmlOnly(accept: string, fmt: string)
    requires Contains(accept, "xml") && !Contains(accept, "json") && !Contains(accept, "*/*")
    ensures AcceptFormat(Some(accept), fmt) == "xml"
  {
    assert OutputFormats[0] == "json" && OutputFormats[1..] == ["xml"];
    assert FirstContained(accept, OutputFormats, fmt) == FirstContained(accept, ["xml"], fmt);
  }

  /** Through `HTTP_ACCEPT`, unless it holds the wildcard media range. */
  function AcceptFormat(accept: Option<string>, fmt: string): string
  {
    if accept.Some? && !Contains(accept.value, "*/*") then FirstContained(accept.value, OutputFormats, fmt) else fmt
  }

  /** `\w` of PCRE: ASCII letters, digits and the underscore. */
  predicate IsWord(c: char)
  {
    IsAlpha(c) || IsDigit(c) || c == '_'
  }

  /** The subject `$` can end at: without one final line feed. */
  function Unterminated(url: string): (r: string)
    ensures |r| <= |url|
  {
    if url != [] && url[|url| - 1] == '\n' then url[..|url| - 1] else url
  }

  /** `preg_match('/\.(\w+)$/i', $url)`: the word after the last dot at the end, if the URL ends so. */
  function SuffixWord(url: string): (r: Option<string>)
    ensures r.Some? ==> 0 < |r.value| < |url|
  {
    var b := Unterminated(url);
    var n := SpanBack(b, IsWord);
    if 0 < n < |b| && b[|b| - 1 - n] == '.' then Some(b[|b| - n..]) else None
  }

  /** Through the URL suffix: a known format is taken and `strlen($format) + 1` characters are cut from the URL's end. */
  function SuffixFormat(url: string, fmt: string): Negotiation
  {
    match SuffixWord(url)
    case Some(w) => if w in OutputFormats then Negotiation(url[..|url| - (|w| + 1)], w) else Negotiation(url, fmt)
    case None => Negotiation(url, fmt)
  }

  /** Through `_format`: a known format in the query overrides. */
  function ParamFormat(query: seq<(string, Value)>, fmt: string): string
  {
    match Inspector.QueryValue(query, "_format")
    case Some(Str(f)) => if f in OutputFormats then f else fmt
    case _ => fmt
  }

  /** `setupFormats`: the three steps in order. */
  function Negotiate(n: Negotiation, env: Incoming): Negotiation
  {
    var s := SuffixFormat(n.url, AcceptFormat(env.accept, n.format));
    Negotiation(s.url, ParamFormat(env.query, s.format))
  }

  /** Negotiation only ever picks a known format. */
  lemma {:induction false} NegotiateKnown(n: Negotiation, env: Incoming)
    requires n.format in OutputFormats
    ensures Negotiate(n, env).format in OutputFormats
  {
  }

  /** The word run at the end of `x + "." + w` is exactly `w`. */
  lemma {:induction false} SpanBackWord(x: string, w: string)
    requires forall i :: 0 <= i < |w| ==> IsWord(w[i])
    ensures SpanBack(x + "." + w, IsWord) == |w|
    decreases |w|
  {
    var s := x + "." + w;
    if w == [] {
      assert s[|s| - 1] == '.';
    } else {
      assert s[..|s| - 1] == x + "." + w[..|w| - 1];
      SpanBackWord(x, w[..|w| - 1]);
    }
  }

  lemma {:induction false} KnownFormatsAreWords(f: string)
    requires f in OutputFormats
    ensures 0 < |f| && forall i :: 0 <= i < |f| ==> IsWord(f[i])
  {
  }

  /** A URL ending in `.json` or `.xml` loses exactly that suffix and sets the format. */
  lemma {:induction false} SuffixStripped(base: string, f: string, fmt: string)
    requires f in OutputFormats
    ensures SuffixFormat(base + "." + f, fmt) == Negotiation(base, f)
  {
    KnownFormatsAreWords(f);
    var url := base + "." + f;
    assert Unterminated(url) == url;
    SpanBackWord(base, f);
    assert url[|url| - 1 - |f|] == '.';
    assert url[|url| - |f|..] == f;
    assert url[..|url| - (|f| + 1)] == base;
  }

  /** A suffix that is not a known format leaves URL and format alone. */
  lemma {:induction false} SuffixUnknown(url: string, fmt: string)
    requires SuffixWord(url).None? || SuffixWord(url).value !in OutputFormats
    ensures SuffixFormat(url, fmt) == Negotiation(url, fmt)
  {
  }

  /** Whatever the suffix step changes, the URL it leaves is a prefix of the old one, shorter by the format and its dot. */
  lemma {:induction false} SuffixOnlyCuts(url: string, fmt: string)
    ensures var s := SuffixFormat(url, fmt);
            s.url == url || (s.format in OutputFormats && s.url == url[..|url| - (|s.format| + 1)])
  {
  }

  /**
   * A URL whose `.json` is followed by a line feed: PCRE's `$` matches
   * before it, and the cut of `strlen($format) + 1` characters then keeps
   * the dot and removes the line feed.
   */
  lemma {:induction false} SuffixBeforeNewline(base: string, f: string, fmt: string)
    requires f in OutputFormats
    ensures SuffixFormat(base + "." + f + "\n", fmt) == Negotiation(base + ".", f)
  {
    KnownFormatsAreWords(f);
    var url := base + "." + f + "\n";
    assert Unterminated(url) == base + "." + f;
    SpanBackWord(base, f);
    var b := base + "." + f;
    assert b[|b| - 1 - |f|] == '.';
    assert b[|b| - |f|..] == f;
    assert url[..|url| - (|f| + 1)] == base + ".";
  }

  /** A known `_format` in the query wins over the Accept header and the suffix. */
  lemma {:induction false} ParamFormatWins(n: Negotiation, env: Incoming, f: string)
    requires Inspector.QueryValue(env.query, "_format") == Some(Str(f)) && f in OutputFormats
    ensures Negotiate(n, env).format == f
  {
  }

  /** An Accept header holding the wildcard media range is ignored. */
  lemma {:induction false} WildcardAcceptIgnored(accept: string, fmt: string)
    requires Contains(accept, "*/*")
    ensures AcceptFormat(Some(accept), fmt) == fmt
  {
  }

  /** Both formats named: `json` comes first in `$outputFormats`. */
  lemma {:induction false} AcceptPrefersJson(accept: string, fmt: string)
    requires Contains(accept, "json") && !Contains(accept, "*/*")
    ensures AcceptFormat(Some(accept), fmt) == "json"
  {
  }

  /** Nothing in the request names a format: the format stays `json` and the URL is kept. */
  lemma {:induction false} DefaultJson(url: string, env: Incoming)
    requires env.accept.None? && Inspector.QueryValue(env.query, "_format").None?
    requires SuffixWord(url).None?
    ensures Negotiate(Negotiation(url, "json"), env) == Negotiation(url, "json")
  {
  }

  // ---------------------------------------------------------------------------
  // sendResponse

  /**
   * The reorder of `sendResponse`: reverse, write `status`, reverse back.
   * A new `status` key therefore comes first; an existing one keeps its place.
   */
  function StatusFirst(code: string, msg: seq<(Key, Value)>): seq<(Key, Value)>
  {
    Reverse(Put(Reverse(msg), KStr("status"), Int(IntVal(code))))
  }

  /** Without a `status` key, the envelope gains it in front and keeps the payload's order. */
  lemma {:induction false} StatusFirstNew(code: string, msg: seq<(Key, Value)>)
    requires !HasKey(msg, KStr("status"))
    ensures StatusFirst(code, msg) == [(KStr("status"), Int(IntVal(code)))] + msg
  {
    ReversePutNew(msg, KStr("status"), Int(IntVal(code)));
  }

  /** Writing a new key into a reversed array and reversing back puts it in front. */
  lemma {:induction false} ReversePutNew(msg: seq<(Key, Value)>, k: Key, v: Value)
    requires !HasKey(msg, k)
    ensures Reverse(Put(Reverse(msg), k, v)) == [(k, v)] + msg
  {
    var r := Reverse(msg);
    assert forall j :: 0 <= j < |r| ==> r[j].0 != k by {
      forall j | 0 <= j < |r|
        ensures r[j].0 != k
      {
        assert r[j] == msg[|msg| - 1 - j];
      }
    }
    PutNew(r, k, v);
    var p := r + [(k, v)];
    var want := [(k, v)] + msg;
    assert Reverse(p) == want by {
      forall i | 0 <= i < |p|
        ensures Reverse(p)[i] == want[i]
      {
        if i > 0 {
          assert Reverse(p)[i] == p[|p| - 1 - i] == r[|msg| - i] == msg[i - 1];
        }
      }
    }
  }

  /** With a `status` key (keys unique, as in any PHP array), only its value changes, in place. */
  lemma {:induction false} StatusFirstExisting(code: string, msg: seq<(Key, Value)>)
    requires UniqueKeys(msg) && HasKey(msg, KStr("status"))
    ensures var i := Find(msg, KStr("status")).value;
            StatusFirst(code, msg) == msg[i := (KStr("status"), Int(IntVal(code)))]
  {
    ReversePutInPlace(msg, KStr("status"), Int(IntVal(code)));
  }

  /** Writing an existing key of a reversed array and reversing back changes that entry in place. */
  lemma {:induction false} ReversePutInPlace(msg: seq<(Key, Value)>, k: Key, v: Value)
    requires UniqueKeys(msg) && HasKey(msg, k)
    ensures Reverse(Put(Reverse(msg), k, v)) == msg[Find(msg, k).value := (k, v)]
  {
    var i := Find(msg, k).value;
    var r := Reverse(msg);
    assert r[|msg| - 1 - i] == msg[i];
    var j := Find(r, k).value;
    assert r[j] == msg[|msg| - 1 - j];
    assert |msg| - 1 - j == i;
    var p := r[j := (k, v)];
    var want := msg[i := (k, v)];
    assert Reverse(p) == want by {
      forall t | 0 <= t < |p|
        ensures Reverse(p)[t] == want[t]
      {
        assert Reverse(p)[t] == p[|p| - 1 - t];
      }
    }
  }

  /** Both cases of the reorder, for PHP arrays. */
  lemma {:induction false} StatusFirstSpec(code: string, msg: seq<(Key, Value)>)
    requires UniqueKeys(msg)
    ensures !HasKey(msg, KStr("status")) ==> StatusFirst(code, msg) == [(KStr("status"), Int(IntVal(code)))] + msg
    ensures HasKey(msg, KStr("status")) ==>
              StatusFirst(code, msg) == msg[Find(msg, KStr("status")).value := (KStr("status"), Int(IntVal(code)))]
  {
    if HasKey(msg, KStr("status")) {
      StatusFirstExisting(code, msg);
    } else {
      StatusFirstNew(code, msg);
    }
  }

  /** `'HTTP/1.0 ' . ($status ? $code . ' ' . $status : $code)`. */
  function StatusLine(code: string): string
  {
    match StatusPhrase(IntVal(code))
    case Some(phrase) => "HTTP/1.0 " + code + " " + phrase
    case None => "HTTP/1.0 " + code
  }

  /**
   * The status header: the code's line when status codes are on, not
   * suppressed, and not on the command line; "200 OK" otherwise off the
   * command line; none on it.
   */
  function StatusHeader(code: string, statusCodes: bool, query: seq<(string, Value)>, cli: bool): (r: Option<string>)
    ensures cli <==> r.None?
  {
    if statusCodes && !Suppressed(query) && !cli then Some(StatusLine(code))
    else if !cli then Some("HTTP/1.0 200 OK")
    else None
  }

  /** `$_GET['_suppress_status_code'] ?? false` is truthy. */
  predicate Suppressed(query: seq<(string, Value)>)
  {
    var suppress := Inspector.QueryValue(query, "_suppress_status_code");
    suppress.Some? && ValueTruthy(suppress.value)
  }

  /**
   * Off the command line, the code's own line is sent exactly when status
   * codes are on and not suppressed, and "200 OK" otherwise (for a code
   * whose line is not itself "200 OK").
   */
  lemma {:induction false} StatusHeaderUsesCode(code: string, statusCodes: bool, query: seq<(string, Value)>)
    requires StatusLine(code) != "HTTP/1.0 200 OK"
    ensures StatusHeader(code, statusCodes, query, false) == Some(StatusLine(code)) <==> statusCodes && !Suppressed(query)
    ensures StatusHeader(code, statusCodes, query, false) != Some(StatusLine(code)) ==>
            StatusHeader(code, statusCodes, query, false) == Some("HTTP/1.0 200 OK")
  {
  }

  /** A code the table knows is followed by its phrase. */
  lemma {:induction false} StatusLineKnown()
    ensures StatusLine("404") == "HTTP/1.0 " + "404" + " " + "Not Found"
  {
    IntValOf(404, "404");
    PhraseNotFound();
    StatusLinePhrase("404", 404, "Not Found");
  }

  lemma {:induction false} StatusLinePhrase(code: string, n: int, phrase: string)
    requires IntVal(code) == n && StatusPhrase(n) == Some(phrase)
    ensures StatusLine(code) == "HTTP/1.0 " + code + " " + phrase
  {
  }

  /** A code the table lacks stands alone. */
  lemma {:induction false} StatusLineUnknown()
    ensures StatusLine("299") == "HTTP/1.0 " + "299"
  {
    IntValOf(299, "299");
    PhraseMissing();
  }

  /** `intval` reads the code "2e2" in exponent notation, as 200. */
  lemma {:induction false} ExponentCode()
    ensures IntVal("2e2") == 200
  {
    IntValExponent(2, 2);
    assert NatToString(2) + "e" + IntToString(2) == "2e2";
  }

  /** The code "2e2" is looked up as 200, so its line carries "OK". */
  lemma {:induction false} StatusLineExponent()
    ensures StatusLine("2e2") == "HTTP/1.0 " + "2e2" + " " + "OK"
  {
    ExponentCode();
    PhraseOk();
    StatusLinePhrase("2e2", 200, "OK");
  }

  /** The code "2e2" is stored in the envelope as the integer 200. */
  lemma {:induction false} StatusFirstExponent(msg: seq<(Key, Value)>)
    requires !HasKey(msg, KStr("status"))
    ensures StatusFirst("2e2", msg) == [(KStr("status"), Int(200))] + msg
  {
    ExponentCode();
    StatusFirstNew("2e2", msg);
  }

  lemma {:induction false} IntValOf(n: nat, text: string)
    requires n <= PhpIntMax && IntToString(n) == text
    ensures IntVal(text) == n
  {
    IntValOfText(n);
  }

  /** `_suppress_status_code` turns the code's line into "200 OK". */
  lemma {:induction false} SuppressedStatus(code: string, query: seq<(string, Value)>)
    requires Inspector.QueryValue(query, "_suppress_status_code") == Some(Str("1"))
    ensures StatusHeader(code, true, query, false) == Some("HTTP/1.0 200 OK")
  {
  }

  /**
   * PHP's resolution of a class name written in `namespace ns`: a name with a
   * leading backslash is fully qualified, any other is taken relative to `ns`.
   */
  function ResolveClassName(ns: string, name: string): (r: string)
    ensures |name| > 0 && name[0] == '\\' ==> r == name[1..]
    ensures !(|name| > 0 && name[0] == '\\') ==> r == ns + "\\" + name && |r| > |ns|
  {
    if |name| > 0 && name[0] == '\\' then name[1..] else ns + "\\" + name
  }

  /** The encoder classes the code defines (`namespace Abigail\Encoder`). */
  const EncoderClasses: set<string> := {"Abigail\\Encoder\\JSON", "Abigail\\Encoder\\XML"}

  /** `$outputFormats` as written in `namespace Abigail`: the xml entry lacks its leading backslash. */
  function EncoderClassAsWritten(format: string): string
  {
    if format == "json" then ResolveClassName("Abigail", "\\Abigail\\Encoder\\JSON")
    else ResolveClassName("Abigail", "Abigail\\Encoder\\XML")
  }

  /** `$outputFormats` with both entries fully qualified. */
  function EncoderClass(format: string): string
  {
    if format == "json" then ResolveClassName("Abigail", "\\Abigail\\Encoder\\JSON")
    else ResolveClassName("Abigail", "\\Abigail\\Encoder\\XML")
  }

  /**
   * As written, the xml encoder `getOutputFormatEncoder` names is
   * `Abigail\Abigail\Encoder\XML::export`, a class the code does not define,
   * so every response in the xml format fails to find its encoder.
   */
  lemma {:induction false} XmlEncoderUndefined()
    ensures EncoderClassAsWritten("xml") == "Abigail\\Abigail\\Encoder\\XML"
    ensures EncoderClassAsWritten("xml") !in EncoderClasses
  {
  }

  /** With both entries fully qualified, every known format names a class the code defines, json and xml their own. */
  lemma {:induction false} EncodersDefined()
    ensures EncoderClass("json") == "Abigail\\Encoder\\JSON"
    ensures EncoderClass("xml") == "Abigail\\Encoder\\XML"
    ensures forall f :: f in OutputFormats ==> EncoderClass(f) in EncoderClasses
  {
  }

  /** The encoder of a format: `JSON::export` (the pretty-printed `json_encode`), or the corrected XML writer `Xml.Export`; None where `jsonFormat` fails. */
  function Encode(format: string, msg: seq<(Key, Value)>, jsonEncode: Value -> string): Option<string>
    requires format in OutputFormats
  {
    if format == "json" then Json.Formatted(jsonEncode(Arr(msg))) else Some(Xml.Export(Arr(msg)))
  }

  /** What `sendResponse` produces: the header sent, the encoded text returned, and whether it was echoed. */
  datatype Delivery = Delivery(header: Option<string>, body: Option<string>, echoed: bool)

  class Client {
    var url: string
    var customMethod: string
    var outputFormat: string

    predicate Valid()
      reads this
    {
      outputFormat in OutputFormats
    }

    /** `__construct`: the URL from `PATH_INFO`, then the format negotiation. */
    constructor (env: Incoming)
      ensures Valid()
      ensures Negotiation(url, outputFormat) ==
              Negotiate(Negotiation(if env.pathInfo.Some? then env.pathInfo.value else "", "json"), env)
      ensures customMethod == ""
    {
      url := if env.pathInfo.Some? then env.pathInfo.value else "";
      outputFormat := "json";
      customMethod := "";
      new;
      SetupFormats(env);
    }

    method SetUrl(u: string)
      modifies this
      ensures url == u && customMethod == old(customMethod) && outputFormat == old(outputFormat)
    {
      url := u;
    }

    /** `setMethod`: from now on `getMethod` returns it when it is truthy. */
    method SetMethod(m: string)
      modifies this
      ensures customMethod == m && url == old(url) && outputFormat == old(outputFormat)
    {
      customMethod := m;
    }

    /** `setupFormats`. */
    method SetupFormats(env: Incoming)
      requires Valid()
      modifies this
      ensures Valid()
      ensures Negotiation(url, outputFormat) == Negotiate(Negotiation(old(url), old(outputFormat)), env)
      ensures customMethod == old(customMethod)
    {
      var n := NegotiateFormats(url, outputFormat, env);
      url, outputFormat := n.url, n.format;
    }

    /** `getMethod`. */
    method GetMethod(env: Incoming) returns (r: Option<string>)
      ensures r == ResolvedMethod(customMethod, env)
    {
      if Truthy(customMethod) {
        return Some(customMethod);
      }
      var m: Option<Value> := if env.requestMethod.Some? then Some(Str(env.requestMethod.value)) else None;
      if env.methodOverride.Some? {
        m := Some(Str(env.methodOverride.value));
      }
      if Inspector.QueryValue(env.query, "_method").Some? {
        m := Inspector.QueryValue(env.query, "_method");
      } else if Inspector.QueryValue(env.form, "_method").Some? {
        m := Inspector.QueryValue(env.form, "_method");
      }
      if m.None? || !m.value.Str? {
        return None;
      }
      var lowered := Lower(m.value.s);
      if lowered !in Methods {
        lowered := "get";
      }
      r := Some(lowered);
    }

    /**
     * `sendResponse`: the status header, then the envelope with `status`
     * in front, encoded in the negotiated format and echoed off the command line.
     */
    method SendResponse(code: string, msg: seq<(Key, Value)>, statusCodes: bool, query: seq<(string, Value)>, cli: bool, jsonEncode: Value -> string)
      returns (d: Delivery)
      requires Valid()
      ensures d.header == StatusHeader(code, statusCodes, query, cli)
      ensures d.body == Encode(outputFormat, StatusFirst(code, msg), jsonEncode)
      ensures d.echoed <==> !cli && d.body.Some?
    {
      var header := StatusHeader(code, statusCodes, query, cli);
      var message := Reverse(msg);
      message := Put(message, KStr("status"), Int(IntVal(code)));
      message := Reverse(message);
      var body := Encode(outputFormat, message, jsonEncode);
      d := Delivery(header, body, !cli && body.Some?);
    }
  }

  /** The three steps of `setupFormats` on the URL and format they start from. */
  method NegotiateFormats(url: string, format: string, env: Incoming) returns (n: Negotiation)
    requires format in OutputFormats
    ensures n == Negotiate(Negotiation(url, format), env)
    ensures n.format in OutputFormats
  {
    var fmt := format;
    var u := url;
    if env.accept.Some? && !Contains(env.accept.value, "*/*") {
      fmt := FirstAccepted(env.accept.value, fmt);
    }
    var w := SuffixWord(u);
    if w.Some? && w.value in OutputFormats {
      fmt := w.value;
      u := u[..|u| - (|fmt| + 1)];
    }
    var f := Inspector.QueryValue(env.query, "_format");
    if f.Some? && f.value.Str? && f.value.s in OutputFormats {
      fmt := f.value.s;
    }
    n := Negotiation(u, fmt);
  }

  /** The `foreach` over the format keys with its `break`: the first key the Accept header contains. */
  method FirstAccepted(accept: string, fmt: string) returns (r: string)
    ensures r == FirstContained(accept, OutputFormats, fmt)
  {
    r := fmt;
    var i := 0;
    while i < |OutputFormats|
      invariant i <= |OutputFormats|
      invariant FirstContained(accept, OutputFormats, fmt) == FirstContained(accept, OutputFormats[i..], r)
      invariant r == fmt
    {
      if Contains(accept, OutputFormats[i]) {
        assert OutputFormats[i..][0] == OutputFormats[i];
        r := OutputFormats[i];
        return;
      }
      assert OutputFormats[i..][1..] == OutputFormats[i + 1..];
      i := i + 1;
    }
  }
}
