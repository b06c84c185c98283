/**
 * `Abigail\Kernel\Inspector`: the metadata of a handler, the parameters the
 * dispatcher binds, the binding of named arguments from the request, and the
 * description document an OPTIONS request receives.
 */
module Inspector {
  import opened Php
  import opened Utils
  import opened Patterns
  import opened Model
  import opened PhpDoc
  import opened Responses

  // ---------------------------------------------------------------------------
  // getMethodMetaData

  /** `getMethodMetaData`: `false` when the file cannot be read, the record of `fill`, or the Error `parse` raises. */
  datatype MetaData = Unreadable | Described(record: seq<(Key, Value)>) | Broken

  /** The Error of `$tags[$currentTag][] = ...` when a `@description` tag meets the description text. */
  const ParseError: Thrown := Raised("Error", "[] operator not supported for strings", AnError)

  /** scan, parse and fill over the lines above a declaration. */
  function MetaDataOf(m: Callable, matches: Option<seq<string>>): MetaData
  {
    match m.linesAbove
    case None => Unreadable
    case Some(lines) =>
      match ParseSpec(DocComment(lines))
      case None => Broken
      case Some(doc) => Described(FillSpec(doc, m.params, matches))
  }

  method GetMethodMetaData(m: Callable, matches: Option<seq<string>>) returns (r: MetaData)
    ensures r == MetaDataOf(m, matches)
  {
    if m.linesAbove.None? {
      return Unreadable;
    }
    var text := Scan(m.linesAbove.value);
    var doc := Parse(text);
    if doc.None? {
      return Broken;
    }
    var record := Fill(doc.value, m.params, matches);
    return Described(record);
  }

  /**
   * A declaration without a docblock is still described: every declared
   * parameter from its declaration, and a `mixed` return.
   */
  lemma {:induction false} MetaDataUndocumented(m: Callable, matches: Option<seq<string>>)
    requires m.linesAbove.Some? && DocComment(m.linesAbove.value) == "" && DistinctNames(m.params)
    ensures MetaDataOf(m, matches).Described?
    ensures MetaDataOf(m, matches).record[0] == (KStr("parameters"), Arr(UndocumentedRecords(m.params, matches, |m.params|)))
    ensures MetaDataOf(m, matches).record[1] == (KStr("return"), Arr([(KStr("type"), Str("mixed"))]))
  {
    assert CommentBody("").None?;
    ParseNonDocblock("");
    FillUndocumented([], m.params, matches);
    FillReturnDefault([], m.params, matches);
  }

  // ---------------------------------------------------------------------------
  // scanClassMethods

  /** The parameters to bind, or the 400 envelope of a method name the controller lacks. */
  datatype Scanned = Declared(params: seq<Param>) | NoSuchMethod(envelope: Envelope)

  /** The reason `scanClassMethods` and `run` give for a method name the controller lacks. */
  function NoMethodReason(name: string, className: string): string
  {
    "There is no method '" + name + "' in " + className + "."
  }

  /** The declaration a handler names: a controller method found by name, or the closure itself. */
  function Target(c: Controller, h: Handler): Option<Callable>
  {
    if h.Named? then FindMethod(c, h.name) else Some(h.fn)
  }

  /** `array_shift`: the array without its first element; an empty array stays empty. */
  function Shift<T>(s: seq<T>): seq<T>
  {
    if s == [] then [] else s[1..]
  }

  method ScanClassMethods(c: Controller, httpMethod: string, h: Handler) returns (r: Scanned)
    ensures Target(c, h).None? ==> r == NoSuchMethod(BadRequest("MethodNotFoundException", NoMethodReason(h.name, c.className)))
    ensures Target(c, h).Some? ==> r.Declared?
    ensures Target(c, h).Some? && httpMethod == "_all_" ==> r.params == Shift(Target(c, h).value.params)
    ensures Target(c, h).Some? && httpMethod != "_all_" ==> r.params == Target(c, h).value.params
  {
    var m: Callable;
    if h.Named? {
      var found := FindMethod(c, h.name);
      if found.None? {
        return NoSuchMethod(BadRequest("MethodNotFoundException", NoMethodReason(h.name, c.className)));
      }
      m := found.value;
    } else {
      m := h.fn;
    }
    var params := m.params;
    if httpMethod == "_all_" && params != [] {
      params := params[1..];
    }
    return Declared(params);
  }

  // ---------------------------------------------------------------------------
  // collectArguments

  /** Query keys the parameter `_` collects: a leading underscore, except `_suppress_status_code`. */
  predicate Underscored(k: string)
  {
    |k| > 0 && k[0] == '_' && k != "_suppress_status_code"
  }

  /** `$thisArgs`: the underscored entries among the first `n` of the query, in query order. */
  function UnderscoreArgs(q: seq<(string, Value)>, n: nat): seq<(Key, Value)>
    requires n <= |q|
  {
    if n == 0 then []
    else
      var acc := UnderscoreArgs(q, n - 1);
      if Underscored(q[n - 1].0) then Put(acc, KStr(q[n - 1].0), q[n - 1].1) else acc
  }

  method UnderscoreArguments(q: seq<(string, Value)>) returns (args: seq<(Key, Value)>)
    ensures args == UnderscoreArgs(q, |q|)
  {
    args := [];
    var i := 0;
    while i < |q|
      invariant i <= |q| && args == UnderscoreArgs(q, i)
    {
      var (k, v) := q[i];
      if Underscored(k) {
        args := Put(args, KStr(k), v);
      }
      i := i + 1;
    }
  }

  /** The underscored entries among the first `n` of the query, appended in query order. */
  function UnderscoreEntries(q: seq<(string, Value)>, n: nat): seq<(Key, Value)>
    requires n <= |q|
  {
    if n == 0 then []
    else UnderscoreEntries(q, n - 1) + (if Underscored(q[n - 1].0) then [(KStr(q[n - 1].0), q[n - 1].1)] else [])
  }

  /** Every entry of the filter comes from the first `n` entries of the query. */
  lemma {:induction false} UnderscoreEntriesFrom(q: seq<(string, Value)>, n: nat)
    requires n <= |q|
    ensures forall i :: 0 <= i < |UnderscoreEntries(q, n)| ==>
              exists j :: 0 <= j < n && UnderscoreEntries(q, n)[i] == (KStr(q[j].0), q[j].1)
  {
    if n > 0 {
      UnderscoreEntriesFrom(q, n - 1);
      var prev := UnderscoreEntries(q, n - 1);
      forall i | 0 <= i < |UnderscoreEntries(q, n)|
        ensures exists j :: 0 <= j < n && UnderscoreEntries(q, n)[i] == (KStr(q[j].0), q[j].1)
      {
        if i < |prev| {
          var j :| 0 <= j < n - 1 && prev[i] == (KStr(q[j].0), q[j].1);
          assert UnderscoreEntries(q, n)[i] == prev[i];
          assert 0 <= j < n && UnderscoreEntries(q, n)[i] == (KStr(q[j].0), q[j].1);
        } else {
          assert UnderscoreEntries(q, n)[i] == (KStr(q[n - 1].0), q[n - 1].1);
          assert 0 <= n - 1 < n;
        }
      }
    } else {
      assert UnderscoreEntries(q, n) == [];
    }
  }

  /**
   * For a query whose keys are distinct (as `$_GET`'s are), `_` receives
   * exactly the underscored entries, in query order, with their values.
   */
  lemma {:induction false} UnderscoreArgsExact(q: seq<(string, Value)>, n: nat)
    requires n <= |q| && UniqueKeys(q)
    ensures UnderscoreArgs(q, n) == UnderscoreEntries(q, n)
  {
    if n > 0 {
      UnderscoreArgsExact(q, n - 1);
      var acc := UnderscoreArgs(q, n - 1);
      var (k, v) := q[n - 1];
      if Underscored(k) {
        UnderscoreEntriesFrom(q, n - 1);
        forall i | 0 <= i < |acc|
          ensures acc[i].0 != KStr(k)
        {
          var j :| 0 <= j < n - 1 && acc[i] == (KStr(q[j].0), q[j].1);
          assert q[j].0 != q[n - 1].0;
        }
        PutNew(acc, KStr(k), v);
      }
    }
  }

  /** Every key `_` receives is underscored and is not `_suppress_status_code`. */
  lemma {:induction false} UnderscoreArgsKeys(q: seq<(string, Value)>, n: nat)
    requires n <= |q|
    ensures forall i :: 0 <= i < |UnderscoreArgs(q, n)| ==>
              UnderscoreArgs(q, n)[i].0.KStr? && Underscored(UnderscoreArgs(q, n)[i].0.s)
  {
    if n > 0 {
      UnderscoreArgsKeys(q, n - 1);
      var acc := UnderscoreArgs(q, n - 1);
      var (k, v) := q[n - 1];
      if Underscored(k) {
        match Find(acc, KStr(k))
        case Some(i) =>
          assert Put(acc, KStr(k), v) == acc[i := (KStr(k), v)];
        case None =>
          assert Put(acc, KStr(k), v) == acc + [(KStr(k), v)];
      }
    }
  }

  /** `isset($_GET[$name])` and `$_GET[$name] ?? ...`: a query entry that is not null. */
  function QueryValue(q: seq<(string, Value)>, name: string): Option<Value>
  {
    match Get(q, name)
    case Some(v) => if v == Null then None else Some(v)
    case None => None
  }

  /** A required parameter the request supplies neither in the query nor in the body. */
  predicate IsMissing(p: Param, q: seq<(string, Value)>, b: seq<(string, string)>)
  {
    var name := ArgumentName(p.name);
    name != "_" && !p.optional && QueryValue(q, name).None? && Get(b, name).None?
  }

  /** The value bound to a parameter: `_` gets the underscored query; others the query, else the body, else the default. */
  function Bound(p: Param, q: seq<(string, Value)>, b: seq<(string, string)>): Value
  {
    var name := ArgumentName(p.name);
    if name == "_" then Arr(UnderscoreArgs(q, |q|))
    else if QueryValue(q, name).Some? then QueryValue(q, name).value
    else if Get(b, name).Some? then Str(Get(b, name).value)
    else p.default
  }

  /** The reason given for a missing required argument. */
  function MissingReason(name: string): string
  {
    "Argument '" + name + "' is missing."
  }

  /** The arguments bound so far, or the 400 envelope of the first missing one. */
  datatype Collected = Arguments(args: seq<Value>) | MissingArgument(envelope: Envelope)

  /** The `foreach` of `collectArguments` over the first `n` parameters, stopping at the first missing one. */
  function CollectSpec(ps: seq<Param>, n: nat, q: seq<(string, Value)>, b: seq<(string, string)>): Collected
    requires n <= |ps|
  {
    if n == 0 then Arguments([])
    else match CollectSpec(ps, n - 1, q, b)
      case MissingArgument(e) => MissingArgument(e)
      case Arguments(xs) =>
        if IsMissing(ps[n - 1], q, b)
        then MissingArgument(BadRequest("MissingRequiredArgumentException", MissingReason(ArgumentName(ps[n - 1].name))))
        else Arguments(xs + [Bound(ps[n - 1], q, b)])
  }

  lemma {:induction false} CollectStaysMissing(ps: seq<Param>, i: nat, n: nat, q: seq<(string, Value)>, b: seq<(string, string)>)
    requires i <= n <= |ps| && CollectSpec(ps, i, q, b).MissingArgument?
    ensures CollectSpec(ps, n, q, b) == CollectSpec(ps, i, q, b)
    decreases n - i
  {
    if i < n {
      CollectStaysMissing(ps, i + 1, n, q, b);
    }
  }

  /** One parameter of `collectArguments`. */
  method CollectOne(p: Param, q: seq<(string, Value)>, b: seq<(string, string)>) returns (v: Option<Value>)
    ensures v.None? <==> IsMissing(p, q, b)
    ensures v.Some? ==> v.value == Bound(p, q, b)
  {
    var name := ArgumentName(p.name);
    if name == "_" {
      var args := UnderscoreArguments(q);
      return Some(Arr(args));
    }
    var fromQuery := QueryValue(q, name);
    var fromBody := Get(b, name);
    if !p.optional && fromQuery.None? && fromBody.None? {
      return None;
    }
    if fromQuery.Some? {
      v := fromQuery;
    } else if fromBody.Some? {
      v := Some(Str(fromBody.value));
    } else {
      v := Some(p.default);
    }
  }

  method CollectArguments(params: seq<Param>, q: seq<(string, Value)>, b: seq<(string, string)>) returns (r: Collected)
    ensures r == CollectSpec(params, |params|, q, b)
  {
    r := Arguments([]);
    var i := 0;
    while i < |params| && r.Arguments?
      invariant i <= |params| && r == CollectSpec(params, i, q, b)
    {
      var v := CollectOne(params[i], q, b);
      if v.None? {
        r := MissingArgument(BadRequest("MissingRequiredArgumentException", MissingReason(ArgumentName(params[i].name))));
      } else {
        r := Arguments(r.args + [v.value]);
      }
      i := i + 1;
    }
    if r.MissingArgument? {
      CollectStaysMissing(params, i, |params|, q, b);
    }
  }

  /** The first missing required parameter decides the answer: a 400 naming it. */
  lemma {:induction false} CollectFirstMissing(ps: seq<Param>, j: nat, q: seq<(string, Value)>, b: seq<(string, string)>)
    requires j < |ps| && IsMissing(ps[j], q, b)
    requires forall i :: 0 <= i < j ==> !IsMissing(ps[i], q, b)
    ensures CollectSpec(ps, |ps|, q, b) ==
            MissingArgument(BadRequest("MissingRequiredArgumentException", MissingReason(ArgumentName(ps[j].name))))
  {
    CollectAllBound(ps, j, q, b);
    CollectStaysMissing(ps, j + 1, |ps|, q, b);
  }

  /** The values bound to the first `n` parameters, in declaration order. */
  function BoundValues(ps: seq<Param>, n: nat, q: seq<(string, Value)>, b: seq<(string, string)>): (vs: seq<Value>)
    requires n <= |ps|
    ensures |vs| == n
  {
    seq(n, i requires 0 <= i < n => Bound(ps[i], q, b))
  }

  lemma {:induction false} BoundValuesSnoc(ps: seq<Param>, n: nat, q: seq<(string, Value)>, b: seq<(string, string)>)
    requires 0 < n <= |ps|
    ensures BoundValues(ps, n, q, b) == BoundValues(ps, n - 1, q, b) + [Bound(ps[n - 1], q, b)]
  {
    var l, r := BoundValues(ps, n, q, b), BoundValues(ps, n - 1, q, b) + [Bound(ps[n - 1], q, b)];
    forall k | 0 <= k < n ensures l[k] == r[k] {
      if k < n - 1 { assert l[k] == Bound(ps[k], q, b); }
    }
  }

  /** With nothing missing, every parameter is bound, in declaration order. */
  lemma {:induction false} CollectAllBound(ps: seq<Param>, n: nat, q: seq<(string, Value)>, b: seq<(string, string)>)
    requires n <= |ps|
    requires forall i :: 0 <= i < n ==> !IsMissing(ps[i], q, b)
    ensures CollectSpec(ps, n, q, b) == Arguments(BoundValues(ps, n, q, b))
  {
    if n > 0 {
      CollectAllBound(ps, n - 1, q, b);
      BoundValuesSnoc(ps, n, q, b);
    }
  }

  /** A missing required argument is reported only when some parameter is missing. */
  lemma {:induction false} CollectMissingHasCause(ps: seq<Param>, n: nat, q: seq<(string, Value)>, b: seq<(string, string)>)
    requires n <= |ps| && CollectSpec(ps, n, q, b).MissingArgument?
    ensures exists j :: 0 <= j < n && IsMissing(ps[j], q, b) &&
              CollectSpec(ps, n, q, b).envelope == BadRequest("MissingRequiredArgumentException", MissingReason(ArgumentName(ps[j].name)))
  {
    if CollectSpec(ps, n - 1, q, b).MissingArgument? {
      CollectMissingHasCause(ps, n - 1, q, b);
    } else {
      assert IsMissing(ps[n - 1], q, b);
    }
  }

  /** The query wins over the body, and the body over the default. */
  lemma {:induction false} BoundPrecedence(p: Param, q: seq<(string, Value)>, b: seq<(string, string)>)
    requires ArgumentName(p.name) != "_"
    ensures QueryValue(q, ArgumentName(p.name)).Some? ==> Bound(p, q, b) == QueryValue(q, ArgumentName(p.name)).value
    ensures QueryValue(q, ArgumentName(p.name)).None? && Get(b, ArgumentName(p.name)).Some? ==>
              Bound(p, q, b) == Str(Get(b, ArgumentName(p.name)).value)
    ensures QueryValue(q, ArgumentName(p.name)).None? && Get(b, ArgumentName(p.name)).None? ==>
              (IsMissing(p, q, b) <==> !p.optional) && (p.optional ==> Bound(p, q, b) == p.default)
  {
  }

  // ---------------------------------------------------------------------------
  // describe

  /** The three reserved query parameters every full description lists. */
  const ReservedParameters: Value := Arr([
    (KStr("_method"), Arr([
      (KStr("description"), Str("Can be used as HTTP METHOD if the client does not support HTTP methods.")),
      (KStr("type"), Str("string")),
      (KStr("values"), Str("GET, POST, PUT, DELETE, HEAD, OPTIONS, PATCH"))])),
    (KStr("_suppress_status_code"), Arr([
      (KStr("description"), Str("Suppress the HTTP status code.")),
      (KStr("type"), Str("boolean")),
      (KStr("values"), Str("1, 0"))])),
    (KStr("_format"), Arr([
      (KStr("description"), Str("Format of generated data. Can be added as suffix .json .xml")),
      (KStr("type"), Str("string")),
      (KStr("values"), Str("json, xml"))]))])

  /** `ReflectionClass::getMethod` on a name the controller lacks. */
  function NoReflectedMethod(c: Controller, name: string): Thrown
  {
    Raised("ReflectionException", "Method " + c.className + "::" + name + "() does not exist", AnException)
  }

  /**
   * Whether a route is described, and with which captures: every route when
   * the URI is falsy (with no captures), otherwise the routes whose pattern
   * matches the URI.
   */
  function RouteMatches(uri: string, pattern: string, matcher: Matcher): Option<seq<string>>
  {
    if !Truthy(uri) then Some([]) else matcher(pattern, uri)
  }

  /** `$def['methods'][...]` for one handler: its metadata, `false`, or what reflection or parsing throws. */
  function MethodDoc(c: Controller, h: Handler, caps: seq<string>): Result<Value>
  {
    match Target(c, h)
    case None => Fails(NoReflectedMethod(c, h.name))
    case Some(m) =>
      match MetaDataOf(m, Some(caps))
      case Unreadable => Ok(Bool(false))
      case Described(record) => Ok(Arr(record))
      case Broken => Fails(ParseError)
  }

  /**
   * The `foreach` that fills an array in `describe`: each present item is
   * stored under its key with `$a[$key] = $value`, absent items are skipped,
   * and the first item that throws ends the loop with that throwable.
   */
  function Gather(keys: seq<Key>, items: seq<Option<Result<Value>>>, k: nat): Result<seq<(Key, Value)>>
    requires k <= |keys| && k <= |items|
  {
    if k == 0 then Ok([])
    else match Gather(keys, items, k - 1)
      case Fails(e) => Fails(e)
      case Ok(acc) =>
        match items[k - 1]
        case None => Ok(acc)
        case Some(Fails(e)) => Fails(e)
        case Some(Ok(v)) => Ok(Put(acc, keys[k - 1], v))
  }

  lemma {:induction false} GatherFailed(keys: seq<Key>, items: seq<Option<Result<Value>>>, i: nat, k: nat)
    requires i <= k <= |keys| && k <= |items| && Gather(keys, items, i).Fails?
    ensures Gather(keys, items, k) == Gather(keys, items, i)
    decreases k - i
  {
    if i < k {
      GatherFailed(keys, items, i + 1, k);
    }
  }

  /** The keys of the present items, in order. */
  function PresentKeys(keys: seq<Key>, items: seq<Option<Result<Value>>>, k: nat): seq<Key>
    requires k <= |keys| && k <= |items|
  {
    if k == 0 then [] else PresentKeys(keys, items, k - 1) + (if items[k - 1].Some? then [keys[k - 1]] else [])
  }

  lemma {:induction false} PresentKeysFrom(keys: seq<Key>, items: seq<Option<Result<Value>>>, k: nat, key: Key)
    requires k <= |keys| && k <= |items| && key in PresentKeys(keys, items, k)
    ensures exists j :: 0 <= j < k && keys[j] == key && items[j].Some?
  {
    if key !in PresentKeys(keys, items, k - 1) {
      assert keys[k - 1] == key && items[k - 1].Some?;
    } else {
      PresentKeysFrom(keys, items, k - 1, key);
    }
  }

  /**
   * With distinct keys, a completed gather holds exactly the present items,
   * in order: nothing is overwritten.
   */
  lemma {:induction false} GatherKeys(keys: seq<Key>, items: seq<Option<Result<Value>>>, k: nat)
    requires k <= |keys| && k <= |items| && Gather(keys, items, k).Ok?
    requires forall i, j :: 0 <= i < j < |keys| ==> keys[i] != keys[j]
    ensures Keys(Gather(keys, items, k).value) == PresentKeys(keys, items, k)
  {
    if k > 0 {
      GatherKeys(keys, items, k - 1);
      var acc := Gather(keys, items, k - 1).value;
      if items[k - 1].Some? {
        var key, v := keys[k - 1], items[k - 1].value.value;
        assert Gather(keys, items, k) == Ok(Put(acc, key, v));
        forall j | 0 <= j < |acc|
          ensures acc[j].0 != key
        {
          assert Keys(acc)[j] in PresentKeys(keys, items, k - 1);
          PresentKeysFrom(keys, items, k - 1, acc[j].0);
        }
        PutNew(acc, key, v);
        assert Keys(acc + [(key, v)]) == Keys(acc) + [key];
      }
    }
  }

  /** Whatever the keys, every present item's key ends up in a completed gather. */
  lemma {:induction false} GatherHasKeys(keys: seq<Key>, items: seq<Option<Result<Value>>>, k: nat)
    requires k <= |keys| && k <= |items| && Gather(keys, items, k).Ok?
    ensures forall j :: 0 <= j < k && items[j].Some? ==> HasKey(Gather(keys, items, k).value, keys[j])
  {
    if k > 0 {
      GatherHasKeys(keys, items, k - 1);
      var acc := Gather(keys, items, k - 1).value;
      if items[k - 1].Some? {
        var v := items[k - 1].value.value;
        forall j | 0 <= j < k && items[j].Some?
          ensures HasKey(Put(acc, keys[k - 1], v), keys[j])
        {
          PutGet(acc, keys[k - 1], v, keys[j]);
        }
      }
    }
  }

  /** The upper-cased method keys of a route. */
  function MethodKeys(ms: seq<(string, Handler)>): seq<Key>
  {
    seq(|ms|, i requires 0 <= i < |ms| => KStr(Upper(ms[i].0)))
  }

  function MethodItems(c: Controller, ms: seq<(string, Handler)>, caps: seq<string>): seq<Option<Result<Value>>>
  {
    Present(seq(|ms|, i requires 0 <= i < |ms| => MethodDoc(c, ms[i].1, caps)))
  }

  /** `$def` of one described route: its full URI, and its methods when it has any. */
  function RouteDoc(n: NodeView, pattern: string, ms: seq<(string, Handler)>, caps: seq<string>): Result<Value>
  {
    match Gather(MethodKeys(ms), MethodItems(n.controller, ms, caps), |ms|)
    case Fails(e) => Fails(e)
    case Ok(docs) => Ok(RouteEntry(n.trigger, pattern, docs))
  }

  /** The route's full URI, and its methods when there are any. */
  function RouteEntry(trigger: string, pattern: string, docs: seq<(Key, Value)>): Value
  {
    Arr([(KStr("uri"), Str(trigger + "/" + pattern))] + (if docs == [] then [] else [(KStr("methods"), Arr(docs))]))
  }

  function RouteKeys(routes: RouteTable): seq<Key>
  {
    seq(|routes|, i requires 0 <= i < |routes| => KStr(routes[i].0))
  }

  /** A route is described when it matches, and then as `RouteDoc` says. */
  function RouteItem(n: NodeView, uri: string, matcher: Matcher, i: nat): Option<Result<Value>>
    requires i < |n.routes|
  {
    match RouteMatches(uri, n.routes[i].0, matcher)
    case None => None
    case Some(caps) => Some(RouteDoc(n, n.routes[i].0, n.routes[i].1, caps))
  }

  function RouteItems(n: NodeView, uri: string, matcher: Matcher): seq<Option<Result<Value>>>
  {
    seq(|n.routes|, i requires 0 <= i < |n.routes| => RouteItem(n, uri, matcher, i))
  }

  /** `$definition['controller']['routes']`. */
  function RouteDocs(n: NodeView, uri: string, matcher: Matcher): Result<seq<(Key, Value)>>
  {
    Gather(RouteKeys(n.routes), RouteItems(n, uri, matcher), |n.routes|)
  }

  /** `$definition['controller']`: the entry point, and the described routes when there are any. */
  function ControllerDoc(trigger: string, routes: seq<(Key, Value)>): Value
  {
    Arr([(KStr("entryPoint"), Str(trigger))] + (if routes == [] then [] else [(KStr("routes"), Arr(routes))]))
  }

  /** The description of one node without its sub-controllers. */
  function Definition(n: NodeView, uri: string, onlyRoutes: bool, matcher: Matcher): Result<seq<(Key, Value)>>
  {
    match RouteDocs(n, uri, matcher)
    case Fails(e) => Fails(e)
    case Ok(routes) =>
      Ok((if onlyRoutes then [] else [(KStr("parameters"), ReservedParameters)]) +
         [(KStr("controller"), ControllerDoc(n.trigger, routes))])
  }

  /** What `$controller->describe(false, true)` raises: `__call` forwards it to the router, which has no such method. */
  const UndefinedDescribe: Thrown := Raised("Error", "Call to undefined method Abigail\\Kernel\\Router::describe()", AnError)

  /** `describe` as written: asked for the whole tree of a node with sub-controllers, it raises an Error. */
  function DescribeAsWritten(n: NodeView, uri: string, onlyRoutes: bool, matcher: Matcher): Result<seq<(Key, Value)>>
  {
    match Definition(n, uri, onlyRoutes, matcher)
    case Fails(e) => Fails(e)
    case Ok(d) => if !Truthy(uri) && n.children != [] then Fails(UndefinedDescribe) else Ok(d)
  }

  /** An array result as the value stored under a key. */
  function AsValue(r: Result<seq<(Key, Value)>>): Result<Value>
  {
    match r
    case Fails(e) => Fails(e)
    case Ok(d) => Ok(Arr(d))
  }

  function ChildKeys(n: NodeView): seq<Key>
  {
    seq(|n.children|, i requires 0 <= i < |n.children| => KStr(n.children[i].trigger))
  }

  /**
   * `describe` as intended: the sub-controllers of a whole-tree description
   * are each described in full (no URI) and without the reserved parameters,
   * keyed by their trigger URL.
   */
  function DescribeTree(n: NodeView, uri: string, onlyRoutes: bool, matcher: Matcher): Result<seq<(Key, Value)>>
    decreases n, 1
  {
    match Definition(n, uri, onlyRoutes, matcher)
    case Fails(e) => Fails(e)
    case Ok(d) =>
      if Truthy(uri) || n.children == [] then Ok(d)
      else match Gather(ChildKeys(n), ChildItems(n, matcher), |n.children|)
        case Fails(e) => Fails(e)
        case Ok(subs) => Ok(d + [(KStr("subController"), Arr(subs))])
  }

  /** Each sub-controller described in full, without the reserved parameters. */
  function ChildItems(n: NodeView, matcher: Matcher): seq<Option<Result<Value>>>
    decreases n, 0
  {
    Present(seq(|n.children|, i requires 0 <= i < |n.children| => AsValue(DescribeTree(n.children[i], "", true, matcher))))
  }

  /** Items that are all present. */
  function Present(rs: seq<Result<Value>>): (r: seq<Option<Result<Value>>>)
    ensures |r| == |rs| && forall j :: 0 <= j < |rs| ==> r[j].Some? && r[j].value == rs[j]
  {
    seq(|rs|, i requires 0 <= i < |rs| => Some(rs[i]))
  }

  /** The metadata of one handler, read through reflection. */
  method DescribeHandler(c: Controller, h: Handler, caps: seq<string>) returns (r: Result<Value>)
    ensures r == MethodDoc(c, h, caps)
  {
    var m: Callable;
    if h.Named? {
      var found := FindMethod(c, h.name);
      if found.None? {
        return Fails(NoReflectedMethod(c, h.name));
      }
      m := found.value;
    } else {
      m := h.fn;
    }
    var meta := GetMethodMetaData(m, Some(caps));
    match meta {
      case Unreadable => r := Ok(Bool(false));
      case Described(record) => r := Ok(Arr(record));
      case Broken => r := Fails(ParseError);
    }
  }

  /** The `i`-th item of a route's methods is the metadata of its handler. */
  predicate DocAt(items: seq<Option<Result<Value>>>, j: nat, c: Controller, ms: seq<(string, Handler)>, caps: seq<string>)
    requires j < |items| && j < |ms|
  {
    items[j] == Some(MethodDoc(c, ms[j].1, caps))
  }

  /**
   * The inner `foreach` of `describe`: the metadata of every method of a
   * route. `items` is `MethodItems(c, ms, caps)`, given entry by entry.
   */
  method DescribeMethods(c: Controller, ms: seq<(string, Handler)>, caps: seq<string>, ghost items: seq<Option<Result<Value>>>)
    returns (docs: Result<seq<(Key, Value)>>)
    requires |items| == |ms| && forall j :: 0 <= j < |ms| ==> DocAt(items, j, c, ms, caps)
    ensures docs == Gather(MethodKeys(ms), items, |ms|)
  {
    ghost var keys := MethodKeys(ms);
    docs := Ok([]);
    var i := 0;
    while i < |ms|
      invariant i <= |ms| && docs.Ok? && docs == Gather(keys, items, i)
    {
      docs := DescribeMethod(c, ms, caps, i, items, docs);
      if docs.Fails? {
        GatherFailed(keys, items, i + 1, |ms|);
        return;
      }
      i := i + 1;
    }
  }

  /** One pass of the inner `foreach`. */
  method DescribeMethod(c: Controller, ms: seq<(string, Handler)>, caps: seq<string>, i: nat,
                        ghost items: seq<Option<Result<Value>>>, docs: Result<seq<(Key, Value)>>)
    returns (next: Result<seq<(Key, Value)>>)
    requires i < |ms| && |items| == |ms| && forall j :: 0 <= j < |ms| ==> DocAt(items, j, c, ms, caps)
    requires docs.Ok? && docs == Gather(MethodKeys(ms), items, i)
    ensures next == Gather(MethodKeys(ms), items, i + 1)
  {
    assert DocAt(items, i, c, ms, caps);
    var v := DescribeHandler(c, ms[i].1, caps);
    assert items[i] == Some(v) && MethodKeys(ms)[i] == KStr(Upper(ms[i].0));
    if v.Fails? {
      next := Fails(v.e);
    } else {
      next := Ok(Put(docs.value, KStr(Upper(ms[i].0)), v.value));
    }
  }

  /** `$def` of one described route. */
  method DescribeRoute(n: NodeView, pattern: string, ms: seq<(string, Handler)>, caps: seq<string>) returns (r: Result<Value>)
    ensures r == RouteDoc(n, pattern, ms, caps)
  {
    ghost var items := MethodItems(n.controller, ms, caps);
    var docs := DescribeMethods(n.controller, ms, caps, items);
    if docs.Fails? {
      return Fails(docs.e);
    }
    var methods := if docs.value == [] then [] else [(KStr("methods"), Arr(docs.value))];
    r := Ok(Arr([(KStr("uri"), Str(n.trigger + "/" + pattern))] + methods));
    assert r == Ok(RouteEntry(n.trigger, pattern, docs.value));
  }

  /** The `j`-th item of the route loop is as `RouteItem` says. */
  predicate RouteItemAt(items: seq<Option<Result<Value>>>, j: nat, n: NodeView, uri: string, matcher: Matcher)
    requires j < |items| && j < |n.routes|
  {
    items[j] == RouteItem(n, uri, matcher, j)
  }

  lemma {:induction false} RouteItemsAt(n: NodeView, uri: string, matcher: Matcher)
    ensures |RouteItems(n, uri, matcher)| == |n.routes|
    ensures forall j :: 0 <= j < |n.routes| ==> RouteItemAt(RouteItems(n, uri, matcher), j, n, uri, matcher)
  {
  }

  /**
   * The outer `foreach` of `describe`: the routes the URI selects. `items`
   * is `RouteItems(n, uri, matcher)`, given entry by entry.
   */
  method DescribeRoutes(n: NodeView, uri: string, matcher: Matcher, ghost items: seq<Option<Result<Value>>>)
    returns (routes: Result<seq<(Key, Value)>>)
    requires |items| == |n.routes| && forall j :: 0 <= j < |n.routes| ==> RouteItemAt(items, j, n, uri, matcher)
    ensures routes == Gather(RouteKeys(n.routes), items, |n.routes|)
  {
    ghost var keys := RouteKeys(n.routes);
    routes := Ok([]);
    var i := 0;
    while i < |n.routes|
      invariant i <= |n.routes| && routes.Ok? && routes == Gather(keys, items, i)
    {
      routes := DescribeRouteAt(n, uri, matcher, i, items, routes);
      if routes.Fails? {
        GatherFailed(keys, items, i + 1, |n.routes|);
        return;
      }
      i := i + 1;
    }
  }

  /** One pass of the outer `foreach`: route `i` is described when the URI selects it. */
  method DescribeRouteAt(n: NodeView, uri: string, matcher: Matcher, i: nat,
                         ghost items: seq<Option<Result<Value>>>, routes: Result<seq<(Key, Value)>>)
    returns (next: Result<seq<(Key, Value)>>)
    requires i < |n.routes| && |items| == |n.routes| && forall j :: 0 <= j < |n.routes| ==> RouteItemAt(items, j, n, uri, matcher)
    requires routes.Ok? && routes == Gather(RouteKeys(n.routes), items, i)
    ensures next == Gather(RouteKeys(n.routes), items, i + 1)
  {
    assert RouteItemAt(items, i, n, uri, matcher);
    var (pattern, ms) := n.routes[i];
    var caps := RouteMatches(uri, pattern, matcher);
    assert RouteKeys(n.routes)[i] == KStr(pattern);
    if caps.Some? {
      var def := DescribeRoute(n, pattern, ms, caps.value);
      if def.Fails? {
        next := Fails(def.e);
      } else {
        next := Ok(Put(routes.value, KStr(pattern), def.value));
      }
    } else {
      next := routes;
    }
  }

  /** `describe`, with the sub-controllers described as intended. */
  method Describe(n: NodeView, uri: string, onlyRoutes: bool, matcher: Matcher) returns (r: Result<seq<(Key, Value)>>)
    ensures r == DescribeTree(n, uri, onlyRoutes, matcher)
    decreases n, 1
  {
    ghost var routeItems := RouteItems(n, uri, matcher);
    RouteItemsAt(n, uri, matcher);
    var routes := DescribeRoutes(n, uri, matcher, routeItems);
    if routes.Fails? {
      return Fails(routes.e);
    }
    var parameters := if onlyRoutes then [] else [(KStr("parameters"), ReservedParameters)];
    var definition := parameters + [(KStr("controller"), ControllerDoc(n.trigger, routes.value))];
    if Truthy(uri) || n.children == [] {
      return Ok(definition);
    }
    ghost var items := ChildItems(n, matcher);
    var subs := DescribeChildren(n, matcher, items);
    if subs.Fails? {
      return Fails(subs.e);
    }
    r := Ok(definition + [(KStr("subController"), Arr(subs.value))]);
  }

  /** The `j`-th item of the sub-controller loop is that child's full description. */
  predicate ChildAt(items: seq<Option<Result<Value>>>, j: nat, n: NodeView, matcher: Matcher)
    requires j < |items| && j < |n.children|
  {
    items[j] == Some(AsValue(DescribeTree(n.children[j], "", true, matcher)))
  }

  /**
   * The `foreach` over the sub-controllers, each described in full.
   * `items` is `ChildItems(n, matcher)`, given entry by entry.
   */
  method DescribeChildren(n: NodeView, matcher: Matcher, ghost items: seq<Option<Result<Value>>>) returns (subs: Result<seq<(Key, Value)>>)
    requires |items| == |n.children| && forall j :: 0 <= j < |n.children| ==> ChildAt(items, j, n, matcher)
    ensures subs == Gather(ChildKeys(n), items, |n.children|)
    decreases n, 0
  {
    subs := Ok([]);
    var j := 0;
    while j < |n.children| && subs.Ok?
      invariant j <= |n.children| && subs == Gather(ChildKeys(n), items, j)
    {
      var child := n.children[j];
      var d := Describe(child, "", true, matcher);
      assert ChildKeys(n)[j] == KStr(child.trigger) && ChildAt(items, j, n, matcher);
      if d.Fails? {
        subs := Fails(d.e);
      } else {
        subs := Ok(Put(subs.value, KStr(child.trigger), Arr(d.value)));
      }
      j := j + 1;
    }
    if subs.Fails? {
      GatherFailed(ChildKeys(n), items, j, |n.children|);
    }
  }

  // ---------------------------------------------------------------------------
  // What a description contains

  /** When every item is present, every key is. */
  lemma {:induction false} PresentKeysAll(keys: seq<Key>, items: seq<Option<Result<Value>>>, k: nat)
    requires k <= |keys| && k <= |items| && forall j :: 0 <= j < k ==> items[j].Some?
    ensures PresentKeys(keys, items, k) == keys[..k]
  {
    if k > 0 {
      PresentKeysAll(keys, items, k - 1);
      assert keys[..k] == keys[..k - 1] + [keys[k - 1]];
    }
  }

  /** With distinct keys, a key is present exactly when its own item is. */
  lemma {:induction false} PresentKeysMember(keys: seq<Key>, items: seq<Option<Result<Value>>>, k: nat, i: nat)
    requires k <= |keys| && k <= |items| && i < k
    requires forall a, b :: 0 <= a < b < |keys| ==> keys[a] != keys[b]
    ensures keys[i] in PresentKeys(keys, items, k) <==> items[i].Some?
  {
    if keys[i] in PresentKeys(keys, items, k) {
      PresentKeysFrom(keys, items, k, keys[i]);
    } else {
      PresentKeysHas(keys, items, k, i);
    }
  }

  lemma {:induction false} PresentKeysHas(keys: seq<Key>, items: seq<Option<Result<Value>>>, k: nat, i: nat)
    requires k <= |keys| && k <= |items| && i < k
    ensures items[i].Some? ==> keys[i] in PresentKeys(keys, items, k)
  {
    if i < k - 1 {
      PresentKeysHas(keys, items, k - 1, i);
    }
  }

  lemma {:induction false} RouteKeysDistinct(routes: RouteTable)
    requires UniqueKeys(routes)
    ensures forall a, b :: 0 <= a < b < |RouteKeys(routes)| ==> RouteKeys(routes)[a] != RouteKeys(routes)[b]
  {
  }

  /** Without a URI every route is described, in route order. */
  lemma {:induction false} DescribeAllRoutes(n: NodeView, uri: string, matcher: Matcher)
    requires !Truthy(uri) && UniqueKeys(n.routes) && RouteDocs(n, uri, matcher).Ok?
    ensures Keys(RouteDocs(n, uri, matcher).value) == RouteKeys(n.routes)
  {
    RouteKeysDistinct(n.routes);
    GatherKeys(RouteKeys(n.routes), RouteItems(n, uri, matcher), |n.routes|);
    PresentKeysAll(RouteKeys(n.routes), RouteItems(n, uri, matcher), |n.routes|);
    assert RouteKeys(n.routes)[..|n.routes|] == RouteKeys(n.routes);
  }

  /** With a URI, a route is described exactly when its pattern matches the URI. */
  lemma {:induction false} DescribeMatchingRoutes(n: NodeView, uri: string, matcher: Matcher, i: nat)
    requires Truthy(uri) && UniqueKeys(n.routes) && RouteDocs(n, uri, matcher).Ok? && i < |n.routes|
    ensures KStr(n.routes[i].0) in Keys(RouteDocs(n, uri, matcher).value) <==> matcher(n.routes[i].0, uri).Some?
  {
    RouteKeysDistinct(n.routes);
    GatherKeys(RouteKeys(n.routes), RouteItems(n, uri, matcher), |n.routes|);
    PresentKeysMember(RouteKeys(n.routes), RouteItems(n, uri, matcher), |n.routes|, i);
  }

  /** A gather of present items that succeeds is empty only when there was nothing to gather. */
  lemma {:induction false} GatherNonEmpty(keys: seq<Key>, items: seq<Option<Result<Value>>>, k: nat)
    requires k <= |keys| && k <= |items| && Gather(keys, items, k).Ok?
    requires forall j :: 0 <= j < k ==> items[j].Some?
    ensures Gather(keys, items, k).value == [] <==> k == 0
  {
    if k > 0 {
      var acc := Gather(keys, items, k - 1).value;
      match Find(acc, keys[k - 1])
      case Some(_) =>
      case None =>
    }
  }

  /**
   * A described route carries its full URI (trigger, slash, pattern) first,
   * and a `methods` entry exactly when it has methods, holding each method's
   * key upper-cased. `items` stands for the route's method metadata, which
   * is always present.
   */
  lemma {:induction false} RouteEntryShape(trigger: string, pattern: string, ms: seq<(string, Handler)>, items: seq<Option<Result<Value>>>)
    requires |items| == |ms| && (forall j :: 0 <= j < |ms| ==> items[j].Some?)
    requires Gather(MethodKeys(ms), items, |ms|).Ok?
    ensures var e := RouteEntry(trigger, pattern, Gather(MethodKeys(ms), items, |ms|).value);
            e.entries[0] == (KStr("uri"), Str(trigger + "/" + pattern)) &&
            (|e.entries| == 2 <==> ms != []) &&
            (ms != [] ==> e.entries[1].0 == KStr("methods") &&
                          forall j :: 0 <= j < |ms| ==> HasKey(e.entries[1].1.entries, KStr(Upper(ms[j].0))))
  {
    var docs := Gather(MethodKeys(ms), items, |ms|).value;
    GatherNonEmpty(MethodKeys(ms), items, |ms|);
    GatherHasKeys(MethodKeys(ms), items, |ms|);
    if ms != [] {
      var e := RouteEntry(trigger, pattern, docs);
      assert e.entries[1].1.entries == docs;
      forall j | 0 <= j < |ms|
        ensures HasKey(docs, KStr(Upper(ms[j].0)))
      {
        assert MethodKeys(ms)[j] == KStr(Upper(ms[j].0));
      }
    }
  }

  /** The metadata of a route's methods is always present: `RouteEntryShape` applies to every described route. */
  lemma {:induction false} MethodItemsPresent(c: Controller, ms: seq<(string, Handler)>, caps: seq<string>)
    ensures |MethodItems(c, ms, caps)| == |ms|
    ensures forall j :: 0 <= j < |ms| ==> MethodItems(c, ms, caps)[j].Some?
  {
  }

  /** The reserved parameters are listed exactly when the description is not limited to routes. */
  lemma {:induction false} DefinitionShape(n: NodeView, uri: string, onlyRoutes: bool, matcher: Matcher)
    requires Definition(n, uri, onlyRoutes, matcher).Ok?
    ensures Keys(Definition(n, uri, onlyRoutes, matcher).value) ==
            (if onlyRoutes then [] else [KStr("parameters")]) + [KStr("controller")]
    ensures !onlyRoutes ==> Definition(n, uri, onlyRoutes, matcher).value[0] == (KStr("parameters"), ReservedParameters)
    ensures Definition(n, uri, onlyRoutes, matcher).value[|Definition(n, uri, onlyRoutes, matcher).value| - 1] ==
            (KStr("controller"), ControllerDoc(n.trigger, RouteDocs(n, uri, matcher).value))
  {
  }

  /** Appending `subController` to a definition adds a key it did not have, as its last entry. */
  lemma {:induction false} AppendSubControllers(def: seq<(Key, Value)>, subs: seq<(Key, Value)>)
    requires KStr("subController") !in Keys(def)
    ensures !HasKey(def, KStr("subController"))
    ensures HasKey(def + [(KStr("subController"), Arr(subs))], KStr("subController"))
  {
    PutNew(def, KStr("subController"), Arr(subs));
    PutGet(def, KStr("subController"), Arr(subs), KStr("subController"));
  }

  /**
   * The sub-controllers are described only for a whole-tree description of
   * a node that has some, and then each one under its trigger URL.
   */
  lemma {:induction false} SubControllersDescribed(n: NodeView, uri: string, onlyRoutes: bool, matcher: Matcher)
    requires DescribeTree(n, uri, onlyRoutes, matcher).Ok?
    ensures var d := DescribeTree(n, uri, onlyRoutes, matcher).value;
            HasKey(d, KStr("subController")) <==> !Truthy(uri) && n.children != []
    ensures var d := DescribeTree(n, uri, onlyRoutes, matcher).value;
            !Truthy(uri) && n.children != [] ==>
              d[|d| - 1].0 == KStr("subController") &&
              forall j :: 0 <= j < |n.children| ==> HasKey(d[|d| - 1].1.entries, KStr(n.children[j].trigger))
  {
    var def := Definition(n, uri, onlyRoutes, matcher).value;
    DefinitionShape(n, uri, onlyRoutes, matcher);
    var subs := Gather(ChildKeys(n), ChildItems(n, matcher), |n.children|);
    if !Truthy(uri) && n.children != [] {
      ChildSubs(n, matcher);
      AppendSubControllers(def, subs.value);
    } else {
      AppendSubControllers(def, []);
    }
  }

  /** Every sub-controller's trigger is a key of a completed `subController` entry. */
  lemma {:induction false} ChildSubs(n: NodeView, matcher: Matcher)
    requires Gather(ChildKeys(n), ChildItems(n, matcher), |n.children|).Ok?
    ensures forall j :: 0 <= j < |n.children| ==>
              HasKey(Gather(ChildKeys(n), ChildItems(n, matcher), |n.children|).value, KStr(n.children[j].trigger))
  {
    GatherHasKeys(ChildKeys(n), ChildItems(n, matcher), |n.children|);
    forall j | 0 <= j < |n.children|
      ensures ChildKeys(n)[j] == KStr(n.children[j].trigger)
    {
    }
  }

  /** As written, a whole-tree description of a node with sub-controllers always fails. */
  lemma {:induction false} SubControllerDescribeFails(n: NodeView, uri: string, onlyRoutes: bool, matcher: Matcher)
    requires !Truthy(uri) && n.children != [] && Definition(n, uri, onlyRoutes, matcher).Ok?
    ensures DescribeAsWritten(n, uri, onlyRoutes, matcher) == Fails(UndefinedDescribe)
  {
  }

  /** Elsewhere the two agree. */
  lemma {:induction false} DescribeAgrees(n: NodeView, uri: string, onlyRoutes: bool, matcher: Matcher)
    requires Truthy(uri) || n.children == []
    ensures DescribeAsWritten(n, uri, onlyRoutes, matcher) == DescribeTree(n, uri, onlyRoutes, matcher)
  {
  }

  /** A root with one route-less sub-controller: described as intended, but an Error as written. */
  lemma {:induction false} SubControllerExample()
    ensures var child := NodeView("/admin", Controller("Admin", []), [], "", true, None, false, None, None, true, []);
            var root := NodeView("/", Controller("App", []), [], "", false, None, false, None, None, true, [child]);
            DescribeTree(root, "", false, Match).Ok? && DescribeAsWritten(root, "", false, Match) == Fails(UndefinedDescribe)
  {
    var child := NodeView("/admin", Controller("Admin", []), [], "", true, None, false, None, None, true, []);
    var root := NodeView("/", Controller("App", []), [], "", false, None, false, None, None, true, [child]);
    assert RouteDocs(child, "", Match) == Ok([]);
    assert DescribeTree(child, "", true, Match).Ok?;
    assert ChildItems(root, Match)[0].value.Ok?;
    assert Gather(ChildKeys(root), ChildItems(root, Match), 1).Ok?;
  }
}
