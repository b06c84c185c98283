/**
 * `Abigail\Kernel\Router`: the route table of one server node, the writers
 * that fill it (`addRoute`, the per-verb wrappers, `collectRoutes`), and the
 * lookup `findRoute` that `run` performs.
 */
module Routing {
  import opened Php
  import opened Utils
  import opened Patterns
  import opened Model
  import opened Inspector

  // ---------------------------------------------------------------------------
  // The route table

  /** The handlers registered for a pattern, empty when the pattern is new. */
  function MethodsOf(t: RouteTable, uri: string): seq<(string, Handler)>
  {
    match Get(t, uri)
    case Some(ms) => ms
    case None => []
  }

  /** `$routes[$uri][$method] ?? null`. */
  function RouteHandler(t: RouteTable, uri: string, verb: string): Option<Handler>
  {
    Get(MethodsOf(t, uri), verb)
  }

  /** `$routes[$uri][$method] = $cb`. */
  function SetRoute(t: RouteTable, uri: string, verb: string, h: Handler): RouteTable
  {
    Put(t, uri, Put(MethodsOf(t, uri), verb, h))
  }

  /** Writing a route changes the handler of that one pattern and method, and no other. */
  lemma {:induction false} SetRouteLookup(t: RouteTable, uri: string, verb: string, h: Handler, uri': string, verb': string)
    ensures RouteHandler(SetRoute(t, uri, verb, h), uri', verb') ==
            if uri' == uri && verb' == verb then Some(h) else RouteHandler(t, uri', verb')
  {
    var ms := Put(MethodsOf(t, uri), verb, h);
    PutGet(t, uri, ms, uri');
    if uri' == uri {
      PutGet(MethodsOf(t, uri), verb, h, verb');
    }
  }

  /**
   * Writing a route keeps the patterns in insertion order: an existing
   * pattern keeps its place, a new one is appended; no pattern is repeated.
   */
  lemma {:induction false} SetRouteOrder(t: RouteTable, uri: string, verb: string, h: Handler)
    ensures HasKey(t, uri) ==> Keys(SetRoute(t, uri, verb, h)) == Keys(t)
    ensures !HasKey(t, uri) ==> Keys(SetRoute(t, uri, verb, h)) == Keys(t) + [uri]
    ensures UniqueKeys(t) ==> UniqueKeys(SetRoute(t, uri, verb, h))
  {
    PutKeys(t, uri, Put(MethodsOf(t, uri), verb, h));
  }

  /** A new pattern is appended with its one handler. */
  lemma {:induction false} SingleRoute(t: RouteTable, uri: string, verb: string, h: Handler)
    requires forall j :: 0 <= j < |t| ==> t[j].0 != uri
    ensures SetRoute(t, uri, verb, h) == t + [(uri, [(verb, h)])]
  {
    assert Find(t, uri).None?;
    assert MethodsOf(t, uri) == [];
    var none: seq<(string, Handler)> := [];
    PutNew(none, verb, h);
    assert none + [(verb, h)] == [(verb, h)];
    PutNew(t, uri, [(verb, h)]);
  }

  /** `$routes[$u][$method] = $cb` for each `$u` in turn. */
  function SetRoutes(t: RouteTable, us: seq<string>, verb: string, h: Handler): RouteTable
    decreases |us|
  {
    if us == [] then t else SetRoutes(SetRoute(t, us[0], verb, h), us[1..], verb, h)
  }

  lemma {:induction false} SetRoutesLookup(t: RouteTable, us: seq<string>, verb: string, h: Handler, uri': string, verb': string)
    ensures RouteHandler(SetRoutes(t, us, verb, h), uri', verb') ==
            if verb' == verb && uri' in us then Some(h) else RouteHandler(t, uri', verb')
    decreases |us|
  {
    if us != [] {
      SetRoutesLookup(SetRoute(t, us[0], verb, h), us[1..], verb, h, uri', verb');
      SetRouteLookup(t, us[0], verb, h, uri', verb');
      assert uri' in us <==> uri' == us[0] || uri' in us[1..];
    }
  }

  // ---------------------------------------------------------------------------
  // findRoute

  /** `array($method, $arguments, $pMethod, $uri)`: the handler, the captures, the method key reported, the pattern. */
  datatype Found = Found(handler: Handler, captures: seq<string>, verb: string, pattern: string)

  /** A pattern the scan stops at: it matches and has the method, or `_all_`. */
  predicate Eligible(t: RouteTable, j: nat, uri: string, verb: string, matcher: Matcher)
    requires j < |t|
  {
    matcher(t[j].0, uri).Some? && (HasKey(t[j].1, verb) || HasKey(t[j].1, "_all_"))
  }

  /** What the scan returns at an eligible pattern: the exact method if present, else `_all_`, reported as `_all_`. */
  function FoundAt(t: RouteTable, j: nat, uri: string, verb: string, matcher: Matcher): Found
    requires j < |t| && Eligible(t, j, uri, verb, matcher)
  {
    var m := if HasKey(t[j].1, verb) then verb else "_all_";
    Found(Get(t[j].1, m).value, matcher(t[j].0, uri).value, m, t[j].0)
  }

  /** The `foreach` of `findRoute` from the `i`-th pattern on. */
  function ScanRoutes(t: RouteTable, i: nat, uri: string, verb: string, matcher: Matcher): Option<Found>
    requires i <= |t|
    decreases |t| - i
  {
    if i == |t| then None
    else if Eligible(t, i, uri, verb, matcher) then Some(FoundAt(t, i, uri, verb, matcher))
    else ScanRoutes(t, i + 1, uri, verb, matcher)
  }

  /**
   * `findRoute`: the literal pattern with the exact method, then the literal
   * pattern's `_all_` handler (reporting the requested method), then the
   * first pattern in insertion order that matches as a whole-URI regex.
   */
  function FindRoute(t: RouteTable, uri: string, verb: string, matcher: Matcher): Option<Found>
  {
    var exact := RouteHandler(t, uri, verb);
    var all := RouteHandler(t, uri, "_all_");
    if exact.Some? && HandlerTruthy(exact.value) then Some(Found(exact.value, [], verb, uri))
    else if verb != "_all_" && all.Some? && HandlerTruthy(all.value) then Some(Found(all.value, [], verb, uri))
    else ScanRoutes(t, 0, uri, verb, matcher)
  }

  /** The scan returns the first eligible pattern. */
  lemma {:induction false} ScanFindsFirst(t: RouteTable, i: nat, j: nat, uri: string, verb: string, matcher: Matcher)
    requires i <= j < |t| && Eligible(t, j, uri, verb, matcher)
    requires forall k :: i <= k < j ==> !Eligible(t, k, uri, verb, matcher)
    ensures ScanRoutes(t, i, uri, verb, matcher) == Some(FoundAt(t, j, uri, verb, matcher))
    decreases j - i
  {
    if i < j {
      ScanFindsFirst(t, i + 1, j, uri, verb, matcher);
    }
  }

  /** The scan fails exactly when no pattern from `i` on is eligible. */
  lemma {:induction false} ScanFails(t: RouteTable, i: nat, uri: string, verb: string, matcher: Matcher)
    requires i <= |t|
    ensures ScanRoutes(t, i, uri, verb, matcher).None? <==> forall k :: i <= k < |t| ==> !Eligible(t, k, uri, verb, matcher)
    decreases |t| - i
  {
    if i < |t| {
      ScanFails(t, i + 1, uri, verb, matcher);
    }
  }

  /** Whatever the scan returns was found at some eligible pattern, with the captures of its match. */
  lemma {:induction false} ScanFound(t: RouteTable, i: nat, uri: string, verb: string, matcher: Matcher)
    requires i <= |t| && ScanRoutes(t, i, uri, verb, matcher).Some?
    ensures exists j :: i <= j < |t| && Eligible(t, j, uri, verb, matcher) &&
              ScanRoutes(t, i, uri, verb, matcher).value == FoundAt(t, j, uri, verb, matcher)
    decreases |t| - i
  {
    if !Eligible(t, i, uri, verb, matcher) {
      ScanFound(t, i + 1, uri, verb, matcher);
    }
  }

  /**
   * In a table without repeated patterns, what the scan reports is the
   * handler registered under the reported pattern and method key; a report
   * under `_all_` means the requested method has no handler there.
   */
  lemma {:induction false} ScanReports(t: RouteTable, uri: string, verb: string, matcher: Matcher)
    requires UniqueKeys(t) && ScanRoutes(t, 0, uri, verb, matcher).Some?
    ensures var f := ScanRoutes(t, 0, uri, verb, matcher).value;
            RouteHandler(t, f.pattern, f.verb) == Some(f.handler) &&
            matcher(f.pattern, uri) == Some(f.captures) &&
            (f.verb == verb || (f.verb == "_all_" && RouteHandler(t, f.pattern, verb).None?))
  {
    ScanFound(t, 0, uri, verb, matcher);
    var j :| 0 <= j < |t| && Eligible(t, j, uri, verb, matcher) &&
             ScanRoutes(t, 0, uri, verb, matcher).value == FoundAt(t, j, uri, verb, matcher);
    assert Find(t, t[j].0) == Some(j);
  }

  /** `findRoute` returns false exactly when neither literal lookup applies and no pattern is eligible. */
  lemma {:induction false} FindRouteFails(t: RouteTable, uri: string, verb: string, matcher: Matcher)
    ensures FindRoute(t, uri, verb, matcher).None? <==>
            !(RouteHandler(t, uri, verb).Some? && HandlerTruthy(RouteHandler(t, uri, verb).value)) &&
            !(verb != "_all_" && RouteHandler(t, uri, "_all_").Some? && HandlerTruthy(RouteHandler(t, uri, "_all_").value)) &&
            forall k :: 0 <= k < |t| ==> !Eligible(t, k, uri, verb, matcher)
  {
    ScanFails(t, 0, uri, verb, matcher);
  }

  // ---------------------------------------------------------------------------
  // collectRoutes

  /** `$collectRoutesExclude`: `'*'`, or a list of method names. */
  datatype Exclusion = Everything | Names(names: seq<string>)

  /** Index of the first upper-case letter, or the length when there is none. */
  function FirstUpper(s: string): (n: nat)
    ensures n <= |s|
  {
    if s == [] then 0 else if IsUpper(s[0]) then 0 else 1 + FirstUpper(s[1..])
  }

  /**
   * The method key of a collected method: the text before its first
   * upper-case letter (`preg_replace` puts a slash there), with `all`
   * standing for `_all_`.
   */
  function VerbOf(name: string): string
  {
    var v := name[..FirstUpper(name)];
    if v == "all" then "_all_" else v
  }

  /** The generated pattern: the rest of the name from its first upper-case letter, dash-cased. */
  function GeneratedUri(name: string): string
  {
    CamelCase2Dashes(name[FirstUpper(name)..])
  }

  /** A name made of a part without upper-case letters and a part that starts with one splits there. */
  lemma {:induction false} SplitName(v: string, r: string)
    requires forall i :: 0 <= i < |v| ==> !IsUpper(v[i])
    requires r == [] || IsUpper(r[0])
    ensures VerbOf(v + r) == if v == "all" then "_all_" else v
    ensures GeneratedUri(v + r) == CamelCase2Dashes(r)
  {
    SplitAt(v, r);
    assert (v + r)[..|v|] == v;
    assert (v + r)[|v|..] == r;
  }

  lemma {:induction false} SplitAt(v: string, r: string)
    requires forall i :: 0 <= i < |v| ==> !IsUpper(v[i])
    requires r == [] || IsUpper(r[0])
    ensures FirstUpper(v + r) == |v|
  {
    if v != [] {
      assert (v + r)[1..] == v[1..] + r;
      SplitAt(v[1..], r);
    } else {
      assert v + r == r;
    }
  }

  /** "Login" dash-cases to "login". */
  lemma {:induction false} LoginDashed()
    ensures CamelCase2Dashes("Login") == "login"
  {
    assert InsertDashes("Login") == "Login" by {
      assert InsertDashes("n") == "n";
      assert InsertDashes("in") == "in";
      assert InsertDashes("gin") == "gin";
      assert InsertDashes("ogin") == "ogin";
    }
    assert Lower("Login") == "login";
  }

  /** The test controller's `postLogin` is registered as the post handler of "login". */
  lemma {:induction false} PostLoginName()
    ensures VerbOf("postLogin") == "post" && GeneratedUri("postLogin") == "login"
  {
    assert "postLogin" == "post" + "Login";
    SplitName("post", "Login");
    LoginDashed();
  }

  /** The test controller's `get` is the get handler of the controller's own root. */
  lemma {:induction false} GetName()
    ensures VerbOf("get") == "get" && GeneratedUri("get") == ""
  {
    assert "get" == "get" + "";
    SplitName("get", "");
  }

  /** A method named `all...` is registered under `_all_`. */
  lemma {:induction false} AllName(r: string)
    requires r == [] || IsUpper(r[0])
    ensures VerbOf("all" + r) == "_all_" && GeneratedUri("all" + r) == CamelCase2Dashes(r)
  {
    SplitName("all", r);
  }

  /** `$a['url']` of an annotation: its text, or "" (the key PHP uses for null) when missing. */
  function UrlText(v: Value): string
  {
    if v.Arr? && Lookup(v.entries, "url").Str? then Lookup(v.entries, "url").s else ""
  }

  /**
   * The patterns `@url` annotations register: one annotation (an array with
   * a `url`), or each annotation of a list; an empty annotation alone
   * registers nothing.
   */
  function UrlTargets(v: Value): seq<string>
  {
    if !v.Arr? then []
    else if IsSet(v.entries, "url") then [UrlText(v)]
    else seq(|v.entries|, i requires 0 <= i < |v.entries| => UrlText(v.entries[i].1))
  }

  /** The patterns a collected method is registered under, or None when reading its docblock raises an Error. */
  function Targets(name: string, meta: MetaData): Option<seq<string>>
  {
    match meta
    case Broken => None
    case Unreadable => Some([GeneratedUri(name)])
    case Described(record) =>
      if IsSet(record, "url") then Some(UrlTargets(Lookup(record, "url"))) else Some([GeneratedUri(name)])
  }

  /** Two `@url` annotations, as `parse` renders them, register both patterns in order. */
  lemma {:induction false} TwoUrlAnnotations(name: string, a: string, b: string, rest: seq<(Key, Value)>)
    requires !HasKey(rest, KStr("url"))
    ensures var urls := Arr([(KInt(0), Arr([(KStr("url"), Str(a))])), (KInt(1), Arr([(KStr("url"), Str(b))]))]);
            Targets(name, Described([(KStr("url"), urls)] + rest)) == Some([a, b])
  {
    var urls := Arr([(KInt(0), Arr([(KStr("url"), Str(a))])), (KInt(1), Arr([(KStr("url"), Str(b))]))]);
    var record := [(KStr("url"), urls)] + rest;
    assert record[0].0 == KStr("url");
    assert !HasKey(urls.entries, KStr("url")) by {
      assert urls.entries[..1] == [(KInt(0), Arr([(KStr("url"), Str(a))]))];
    }
    assert Lookup(record, "url") == urls;
    assert UrlText(urls.entries[0].1) == a;
    assert UrlText(urls.entries[1].1) == b;
    assert UrlTargets(urls) == [a, b];
  }

  /** The public methods of a controller, in declaration order: what `get_class_methods` lists from outside. */
  function PublicMethods(ms: seq<Callable>): (r: seq<Callable>)
    ensures forall m :: m in r ==> m in ms && m.isPublic
  {
    if ms == [] then []
    else (if ms[0].isPublic then [ms[0]] else []) + PublicMethods(ms[1..])
  }

  /** The route table, and the Error that escaped `collectRoutes`, if any (the routes written before it stay). */
  datatype Collected = Collected(table: RouteTable, error: Option<Thrown>)

  /** The patterns each method is registered under, as `collectRoutes` reads its docblock: no regex matches are passed. */
  function TargetsOf(ms: seq<Callable>): (r: seq<Option<seq<string>>>)
    ensures |r| == |ms|
  {
    seq(|ms|, i requires 0 <= i < |ms| => Targets(ms[i].name, MetaDataOf(ms[i], None)))
  }

  /** One method of the `foreach` of `collectRoutes`, given the patterns its docblock yields. */
  function CollectStep(t: RouteTable, name: string, targets: Option<seq<string>>, ex: Exclusion): Collected
  {
    if ex.Names? && name in ex.names then Collected(t, None)
    else match targets
      case None => Collected(t, Some(ParseError))
      case Some(us) => Collected(SetRoutes(t, us, VerbOf(name), Named(name)), None)
  }

  /** The `foreach` of `collectRoutes` over the first `k` methods; it stops at the first Error. */
  function CollectFold(t: RouteTable, ms: seq<Callable>, targets: seq<Option<seq<string>>>, ex: Exclusion, k: nat): Collected
    requires k <= |ms| && k <= |targets|
  {
    if k == 0 then Collected(t, None)
    else
      var prev := CollectFold(t, ms, targets, ex, k - 1);
      if prev.error.Some? then prev else CollectStep(prev.table, ms[k - 1].name, targets[k - 1], ex)
  }

  predicate TargetAt(targets: seq<Option<seq<string>>>, i: nat, ms: seq<Callable>)
    requires i < |targets| && i < |ms|
  {
    targets[i] == Targets(ms[i].name, MetaDataOf(ms[i], None))
  }

  lemma {:induction false} CollectFailed(t: RouteTable, ms: seq<Callable>, targets: seq<Option<seq<string>>>, ex: Exclusion, i: nat, k: nat)
    requires i <= k <= |ms| && k <= |targets| && CollectFold(t, ms, targets, ex, i).error.Some?
    ensures CollectFold(t, ms, targets, ex, k) == CollectFold(t, ms, targets, ex, i)
    decreases k - i
  {
    if i < k {
      CollectFailed(t, ms, targets, ex, i + 1, k);
    }
  }

  /**
   * One collected method changes the handlers of its own method key under
   * its patterns, and nothing else; an excluded method changes nothing.
   */
  lemma {:induction false} CollectStepLookup(t: RouteTable, name: string, targets: Option<seq<string>>, ex: Exclusion, uri: string, verb: string)
    requires CollectStep(t, name, targets, ex).error.None?
    ensures RouteHandler(CollectStep(t, name, targets, ex).table, uri, verb) ==
            if !(ex.Names? && name in ex.names) && verb == VerbOf(name) && uri in targets.value
            then Some(Named(name))
            else RouteHandler(t, uri, verb)
  {
    if !(ex.Names? && name in ex.names) {
      SetRoutesLookup(t, targets.value, VerbOf(name), Named(name), uri, verb);
    }
  }

  /** The last method among the first `k` that registers itself under `uri` and `verb`. */
  function LastWriter(ms: seq<Callable>, targets: seq<Option<seq<string>>>, ex: Exclusion, k: nat, uri: string, verb: string): Option<string>
    requires k <= |ms| && k <= |targets|
  {
    if k == 0 then None
    else
      var name := ms[k - 1].name;
      if !(ex.Names? && name in ex.names) && targets[k - 1].Some? && VerbOf(name) == verb && uri in targets[k - 1].value
      then Some(name)
      else LastWriter(ms, targets, ex, k - 1, uri, verb)
  }

  /**
   * After a collection without Error, a pattern and method key lead to the
   * last method that registered itself there, or to what the table held before.
   */
  lemma {:induction false} CollectLookup(t: RouteTable, ms: seq<Callable>, targets: seq<Option<seq<string>>>, ex: Exclusion, k: nat, uri: string, verb: string)
    requires k <= |ms| && k <= |targets| && CollectFold(t, ms, targets, ex, k).error.None?
    ensures RouteHandler(CollectFold(t, ms, targets, ex, k).table, uri, verb) ==
            match LastWriter(ms, targets, ex, k, uri, verb)
            case Some(name) => Some(Named(name))
            case None => RouteHandler(t, uri, verb)
  {
    if k > 0 {
      var prev := CollectFold(t, ms, targets, ex, k - 1);
      CollectLookup(t, ms, targets, ex, k - 1, uri, verb);
      CollectStepLookup(prev.table, ms[k - 1].name, targets[k - 1], ex, uri, verb);
    }
  }

  /** Only an Error reading a docblock stops the collection, and it comes from a method that is not excluded. */
  lemma {:induction false} CollectErrorCause(t: RouteTable, ms: seq<Callable>, targets: seq<Option<seq<string>>>, ex: Exclusion, k: nat)
    requires k <= |ms| && k <= |targets| && CollectFold(t, ms, targets, ex, k).error.Some?
    ensures CollectFold(t, ms, targets, ex, k).error == Some(ParseError)
    ensures exists j :: 0 <= j < k && targets[j].None? && !(ex.Names? && ms[j].name in ex.names)
  {
    var prev := CollectFold(t, ms, targets, ex, k - 1);
    if prev.error.Some? {
      CollectErrorCause(t, ms, targets, ex, k - 1);
    } else {
      assert targets[k - 1].None? && !(ex.Names? && ms[k - 1].name in ex.names);
    }
  }

  // ---------------------------------------------------------------------------
  // The router object

  class Router {
    var routes: RouteTable
    var fallbackMethod: string
    var describeRoutes: bool
    var exclude: Exclusion

    constructor ()
      ensures routes == [] && fallbackMethod == "" && describeRoutes && exclude == Names(["__construct"])
    {
      routes := [];
      fallbackMethod := "";
      describeRoutes := true;
      exclude := Names(["__construct"]);
    }

    method SetDescribeRoutes(b: bool)
      modifies this
      ensures describeRoutes == b
      ensures routes == old(routes) && fallbackMethod == old(fallbackMethod) && exclude == old(exclude)
    {
      describeRoutes := b;
    }

    /** `findRoute`: the two literal lookups, then the `foreach` over the patterns in insertion order. */
    method Locate(uri: string, verb: string, matcher: Matcher) returns (r: Option<Found>)
      ensures r == FindRoute(routes, uri, verb, matcher)
    {
      var exact := RouteHandler(routes, uri, verb);
      if exact.Some? && HandlerTruthy(exact.value) {
        return Some(Found(exact.value, [], verb, uri));
      }
      var all := RouteHandler(routes, uri, "_all_");
      if verb != "_all_" && all.Some? && HandlerTruthy(all.value) {
        return Some(Found(all.value, [], verb, uri));
      }
      var i := 0;
      while i < |routes|
        invariant i <= |routes|
        invariant ScanRoutes(routes, i, uri, verb, matcher) == ScanRoutes(routes, 0, uri, verb, matcher)
      {
        var ms := routes[i].1;
        var matches := matcher(routes[i].0, uri);
        if matches.Some? {
          var m := verb;
          if !HasKey(ms, m) {
            if HasKey(ms, "_all_") {
              m := "_all_";
            } else {
              i := i + 1;
              continue;
            }
          }
          return Some(Found(Get(ms, m).value, matches.value, m, routes[i].0));
        }
        i := i + 1;
      }
      return None;
    }

    /** `addRoute`: only the pair (pattern, method) changes. */
    method AddRoute(uri: string, cb: Handler, verb: string)
      modifies this`routes
      ensures routes == SetRoute(old(routes), uri, verb, cb)
    {
      var ms := MethodsOf(routes, uri);
      routes := Put(routes, uri, Put(ms, verb, cb));
    }

    /** `addRoute` with the default method key. */
    method AddAnyRoute(uri: string, cb: Handler)
      modifies this
      ensures routes == SetRoute(old(routes), uri, "_all_", cb)
      ensures fallbackMethod == old(fallbackMethod) && describeRoutes == old(describeRoutes) && exclude == old(exclude)
    {
      AddRoute(uri, cb, "_all_");
    }

    method AddGetRoute(uri: string, cb: Handler)
      modifies this
      ensures routes == SetRoute(old(routes), uri, "get", cb)
      ensures fallbackMethod == old(fallbackMethod) && describeRoutes == old(describeRoutes) && exclude == old(exclude)
    {
      AddRoute(uri, cb, "get");
    }

    method AddPostRoute(uri: string, cb: Handler)
      modifies this
      ensures routes == SetRoute(old(routes), uri, "post", cb)
      ensures fallbackMethod == old(fallbackMethod) && describeRoutes == old(describeRoutes) && exclude == old(exclude)
    {
      AddRoute(uri, cb, "post");
    }

    method AddPutRoute(uri: string, cb: Handler)
      modifies this
      ensures routes == SetRoute(old(routes), uri, "put", cb)
      ensures fallbackMethod == old(fallbackMethod) && describeRoutes == old(describeRoutes) && exclude == old(exclude)
    {
      AddRoute(uri, cb, "put");
    }

    method AddPatchRoute(uri: string, cb: Handler)
      modifies this
      ensures routes == SetRoute(old(routes), uri, "patch", cb)
      ensures fallbackMethod == old(fallbackMethod) && describeRoutes == old(describeRoutes) && exclude == old(exclude)
    {
      AddRoute(uri, cb, "patch");
    }

    method AddHeadRoute(uri: string, cb: Handler)
      modifies this
      ensures routes == SetRoute(old(routes), uri, "head", cb)
      ensures fallbackMethod == old(fallbackMethod) && describeRoutes == old(describeRoutes) && exclude == old(exclude)
    {
      AddRoute(uri, cb, "head");
    }

    method AddOptionsRoute(uri: string, cb: Handler)
      modifies this
      ensures routes == SetRoute(old(routes), uri, "options", cb)
      ensures fallbackMethod == old(fallbackMethod) && describeRoutes == old(describeRoutes) && exclude == old(exclude)
    {
      AddRoute(uri, cb, "options");
    }

    method AddDeleteRoute(uri: string, cb: Handler)
      modifies this
      ensures routes == SetRoute(old(routes), uri, "delete", cb)
      ensures fallbackMethod == old(fallbackMethod) && describeRoutes == old(describeRoutes) && exclude == old(exclude)
    {
      AddRoute(uri, cb, "delete");
    }

    /**
     * `collectRoutes` over the controller's methods: nothing when every
     * method is excluded; otherwise each public, non-excluded method is
     * registered under its patterns and method key, until reading a
     * docblock raises an Error, which escapes with the routes written so far.
     */
    method CollectRoutes(c: Controller) returns (error: Option<Thrown>)
      modifies this
      ensures exclude.Everything? ==> routes == old(routes) && error.None?
      ensures exclude.Names? ==>
                var ms := PublicMethods(c.methods);
                Collected(routes, error) ==
                CollectFold(old(routes), ms, TargetsOf(ms), exclude, |ms|)
      ensures fallbackMethod == old(fallbackMethod) && describeRoutes == old(describeRoutes) && exclude == old(exclude)
    {
      if exclude.Everything? {
        return None;
      }
      var ms := PublicMethods(c.methods);
      error := CollectAll(ms, TargetsOf(ms));
    }

    /** The `foreach` of `collectRoutes`; `targets` is `TargetsOf(ms)`, given entry by entry. */
    method CollectAll(ms: seq<Callable>, ghost targets: seq<Option<seq<string>>>) returns (error: Option<Thrown>)
      requires |targets| == |ms| && forall i :: 0 <= i < |ms| ==> TargetAt(targets, i, ms)
      modifies this`routes
      ensures Collected(routes, error) == CollectFold(old(routes), ms, targets, exclude, |ms|)
    {
      ghost var start := routes;
      error := None;
      var i := 0;
      while i < |ms| && error.None?
        invariant i <= |ms|
        invariant Collected(routes, error) == CollectFold(start, ms, targets, exclude, i)
      {
        error := CollectOne(ms, targets, i);
        i := i + 1;
      }
      if error.Some? {
        CollectFailed(start, ms, targets, exclude, i, |ms|);
      }
    }

    /** One method of the `foreach` of `collectRoutes`. */
    method CollectOne(ms: seq<Callable>, ghost targets: seq<Option<seq<string>>>, i: nat) returns (error: Option<Thrown>)
      requires i < |ms| && |targets| == |ms| && forall j :: 0 <= j < |ms| ==> TargetAt(targets, j, ms)
      modifies this`routes
      ensures Collected(routes, error) == CollectStep(old(routes), ms[i].name, targets[i], exclude)
    {
      assert TargetAt(targets, i, ms);
      var m := ms[i];
      if exclude.Names? && m.name in exclude.names {
        return None;
      }
      var us := ReadTargets(m);
      if us.None? {
        return Some(ParseError);
      }
      AddRoutes(us.value, VerbOf(m.name), Named(m.name));
      error := None;
    }

    /** `$routes[$u][$method] = $cb` for each pattern in turn. */
    method AddRoutes(us: seq<string>, verb: string, h: Handler)
      modifies this`routes
      ensures routes == SetRoutes(old(routes), us, verb, h)
    {
      ghost var before := routes;
      var j := 0;
      while j < |us|
        invariant j <= |us|
        invariant SetRoutes(routes, us[j..], verb, h) == SetRoutes(before, us, verb, h)
      {
        assert us[j..][1..] == us[j + 1..];
        AddRoute(us[j], h, verb);
        j := j + 1;
      }
      assert us[|us|..] == [];
    }
  }

  /** The patterns of one method: its `@url` annotations, or the one generated from its name; None when its docblock raises an Error. */
  method ReadTargets(m: Callable) returns (r: Option<seq<string>>)
    ensures r == Targets(m.name, MetaDataOf(m, None))
  {
    var info := GetMethodMetaData(m, None);
    match info {
      case Broken => r := None;
      case Unreadable => r := Some([GeneratedUri(m.name)]);
      case Described(record) =>
        r := Some(if IsSet(record, "url") then UrlTargets(Lookup(record, "url")) else [GeneratedUri(m.name)]);
    }
  }

  // ---------------------------------------------------------------------------
  // Lookups in concrete tables

  /** A literal route registered under the requested method is found without a regex match. */
  lemma {:induction false} FindLiteral(t: RouteTable, uri: string, verb: string, h: Handler, matcher: Matcher)
    requires RouteHandler(t, uri, verb) == Some(h) && HandlerTruthy(h)
    ensures FindRoute(t, uri, verb, matcher) == Some(Found(h, [], verb, uri))
  {
  }

  /** A literal route registered under `_all_` serves every method that has no handler of its own there. */
  lemma {:induction false} FindAllFallback(t: RouteTable, uri: string, verb: string, h: Handler, matcher: Matcher)
    requires RouteHandler(t, uri, verb).None? && verb != "_all_"
    requires RouteHandler(t, uri, "_all_") == Some(h) && HandlerTruthy(h)
    ensures FindRoute(t, uri, verb, matcher) == Some(Found(h, [], verb, uri))
  {
  }

  /**
   * The router test: a get route and a post route on one pattern and an
   * `_all_` route on another; each method of the first reaches its own
   * handler, and the second answers any method.
   */
  lemma {:induction false} VerbRoutes(u: string, w: string, get: Handler, post: Handler, all: Handler, verb: string, matcher: Matcher)
    requires u != w && HandlerTruthy(get) && HandlerTruthy(post) && HandlerTruthy(all) && verb != "_all_"
    ensures var t := SetRoute(SetRoute(SetRoute([], u, "get", get), u, "post", post), w, "_all_", all);
            FindRoute(t, u, "get", matcher) == Some(Found(get, [], "get", u)) &&
            FindRoute(t, u, "post", matcher) == Some(Found(post, [], "post", u)) &&
            FindRoute(t, w, verb, matcher) == Some(Found(all, [], verb, w))
  {
    var t1 := SetRoute([], u, "get", get);
    var t2 := SetRoute(t1, u, "post", post);
    var t := SetRoute(t2, w, "_all_", all);
    SetRouteLookup(t2, w, "_all_", all, u, "get");
    SetRouteLookup(t1, u, "post", post, u, "get");
    SetRouteLookup([], u, "get", get, u, "get");
    FindLiteral(t, u, "get", get, matcher);
    SetRouteLookup(t2, w, "_all_", all, u, "post");
    SetRouteLookup(t1, u, "post", post, u, "post");
    FindLiteral(t, u, "post", post, matcher);
    SetRouteLookup(t2, w, "_all_", all, w, verb);
    SetRouteLookup(t1, u, "post", post, w, verb);
    SetRouteLookup([], u, "get", get, w, verb);
    SetRouteLookup(t2, w, "_all_", all, w, "_all_");
    FindAllFallback(t, w, verb, all, matcher);
  }

  /** A pattern registered under one method only does not answer another (the login test: post only, so get fails). */
  lemma {:induction false} OnlyVerb(uri: string, verb: string, other: string, h: Handler, matcher: Matcher)
    requires other != verb && other != "_all_" && verb != "_all_"
    ensures var t := SetRoute([], uri, verb, h);
            FindRoute(t, uri, other, matcher).None?
  {
    var t := SetRoute([], uri, verb, h);
    var ms: seq<(string, Handler)> := [(verb, h)];
    SingleRoute([], uri, verb, h);
    assert t == [(uri, ms)];
    assert !HasKey(ms, other) && !HasKey(ms, "_all_");
    assert !Eligible(t, 0, uri, other, matcher);
    assert ScanRoutes(t, 1, uri, other, matcher).None?;
  }

  /**
   * Two patterns for one handler, a regex one first: a URI only the regex
   * matches is found there, with its captures; the literal one is found by
   * the literal lookup.
   */
  lemma {:induction false} PatternThenLiteral(p: string, lit: string, uri: string, caps: seq<string>, h: Handler, matcher: Matcher)
    requires p != lit && uri != p && uri != lit && HandlerTruthy(h)
    requires matcher(p, uri) == Some(caps)
    ensures var t := SetRoutes([], [p, lit], "get", h);
            FindRoute(t, uri, "get", matcher) == Some(Found(h, caps, "get", p)) &&
            FindRoute(t, lit, "get", matcher) == Some(Found(h, [], "get", lit))
  {
    var ms: seq<(string, Handler)> := [("get", h)];
    var t1 := SetRoute([], p, "get", h);
    SingleRoute([], p, "get", h);
    assert t1 == [(p, ms)];
    var t := SetRoute(t1, lit, "get", h);
    SingleRoute(t1, lit, "get", h);
    assert t == [(p, ms), (lit, ms)];
    assert SetRoutes([], [p, lit], "get", h) == t by {
      assert [p, lit][1..] == [lit];
      assert [lit][1..] == [];
      assert SetRoutes(t, [], "get", h) == t;
      assert SetRoutes(t1, [lit], "get", h) == SetRoutes(t, [], "get", h);
      assert SetRoutes([], [p, lit], "get", h) == SetRoutes(t1, [lit], "get", h);
    }
    assert RouteHandler(t, uri, "get").None?;
    assert RouteHandler(t, uri, "_all_").None?;
    assert Eligible(t, 0, uri, "get", matcher);
    assert RouteHandler(t, lit, "get") == Some(h);
  }

  /**
   * The two `@url` patterns of the test controller's `getStats`: "stats/23"
   * passes over the literal "stats" and matches the digit pattern, capturing "23".
   */
  lemma {:induction false} StatsRoutes()
    ensures var t := SetRoutes([], ["stats/" + DigitGroup, "stats"], "get", Named("getStats"));
            FindRoute(t, "stats/23", "get", Match) == Some(Found(Named("getStats"), ["23"], "get", "stats/" + DigitGroup)) &&
            FindRoute(t, "stats", "get", Match) == Some(Found(Named("getStats"), [], "get", "stats"))
  {
    StatsRoute();
    var p := "stats/" + DigitGroup;
    assert p != "stats" && "stats/23" != p && "stats/23" != "stats" by {
      assert |p| != |"stats"| && |"stats/23"| != |p| && |"stats/23"| != |"stats"|;
    }
    PatternThenLiteral(p, "stats", "stats/23", ["23"], Named("getStats"), Match);
  }
}
