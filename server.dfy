/**
 * `Abigail\Server`: a tree of server nodes, each with a trigger URL, a
 * controller, a router and response settings. `run` offers the request to
 * the sub-controllers in registration order, then answers it itself when
 * the URL lies under its trigger: OPTIONS descriptions, the route lookup,
 * argument binding, the access hook and the call of the handler.
 *
 * The pure functions below state what `run` answers for a snapshot of the
 * tree (`NodeView`); the class `Server` holds the live objects and its
 * `Run` is proved to answer exactly that.
 */
module Servers {
  import opened Php
  import opened Utils
  import opened Model
  import opened Responses
  import Inspector
  import opened Routing
  import Clients
  import Patterns

  /**
   * What `run` returns: the encoded response of a `send...` call (modelled by
   * the envelope handed to the client), "" for a URL outside the trigger,
   * false for a sub-controller without a route, or a throwable escaping it.
   */
  datatype Reply = Sent(envelope: Envelope) | Blank | Unclaimed | Escaped(e: Thrown)

  /** A result the parent's loop returns at once: a truthy string, or a throwable. */
  predicate Answered(r: Reply)
  {
    r.Sent? || r.Escaped?
  }

  /**
   * One run: the envelopes sent before the last one (an access-hook
   * exception is reported and the handler still runs), and the reply.
   */
  datatype Dispatched = Dispatched(emitted: seq<Envelope>, reply: Reply)

  /** `strtolower` of a method that is missing or not a string, under strict types. */
  const MethodTypeError: Thrown := Raised("TypeError", "strtolower(): Argument #1 ($string) must be of type string, null given", ATypeError)

  /** The request as the shared client reports it: its URL, `getMethod`, `$_GET` and the decoded body. */
  function RequestOf(c: Clients.Client, incoming: Clients.Incoming, body: seq<(string, string)>): Request
    reads c
  {
    Request(c.url, Clients.ResolvedMethod(c.customMethod, incoming), incoming.query, body)
  }

  // ---------------------------------------------------------------------------
  // run, as a function of the tree

  /**
   * The result of `run` on a node. It only names `RunNode` below; a proof
   * that is told this value for a sub-controller does not unfold what the
   * sub-controller does.
   */
  function Dispatch(n: NodeView, req: Request, env: Env): Dispatched
    decreases n, 2
  {
    RunNode(n, req, env)
  }

  /** `run`: the first answer of a sub-controller, in registration order, else the node's own. */
  function RunNode(n: NodeView, req: Request, env: Env): Dispatched
    decreases n, 1
  {
    match FirstAnswer(n, 0, req, env)
    case Some(r) => r
    case None => Local(n, req, env)
  }

  /** The `foreach` over the sub-controllers from the `i`-th on: the first answered result, if any. */
  function FirstAnswer(n: NodeView, i: nat, req: Request, env: Env): Option<Dispatched>
    requires i <= |n.children|
    decreases n, 0, |n.children| - i
  {
    if i == |n.children| then None
    else
      var r := Dispatch(n.children[i], req, env);
      if Answered(r.reply) then Some(r) else FirstAnswer(n, i + 1, req, env)
  }

  /** `run` on a node: a sub-controller's answer when one answers, else the node's own. */
  lemma {:induction false} DispatchSplit(n: NodeView, req: Request, env: Env)
    ensures FirstAnswer(n, 0, req, env).Some? ==> Dispatch(n, req, env) == FirstAnswer(n, 0, req, env).value
    ensures FirstAnswer(n, 0, req, env).None? ==> Dispatch(n, req, env) == Local(n, req, env)
  {
    assert Dispatch(n, req, env) == RunNode(n, req, env);
  }

  /** One turn of the loop over the sub-controllers. */
  lemma {:induction false} FirstAnswerStep(n: NodeView, i: nat, req: Request, env: Env, r: Dispatched)
    requires i < |n.children| && r == Dispatch(n.children[i], req, env)
    ensures FirstAnswer(n, i, req, env) == if Answered(r.reply) then Some(r) else FirstAnswer(n, i + 1, req, env)
  {
  }

  /**
   * The part of the normalised URL after the trigger and one more character
   * (the slash, when there is one), "" when nothing or "0" is left; None
   * when the URL does not start with the trigger.
   */
  function LocalUri(trigger: string, url: string): Option<string>
  {
    var u := NormalizeUrl(url);
    if !StartsWith(u, trigger) then None
    else
      var endPos := if trigger == "/" then 1 else |trigger| + 1;
      var rest := if endPos <= |u| then u[endPos..] else "";
      Some(if Truthy(rest) then rest else "")
  }

  /** The node's own part of `run`, after no sub-controller answered. */
  function Local(n: NodeView, req: Request, env: Env): Dispatched
  {
    match LocalUri(n.trigger, req.url)
    case None => Dispatched([], Blank)
    case Some(uri) =>
      if req.verb.None? then Dispatched([], Escaped(MethodTypeError))
      else Answer(n, uri, req.verb.value, FindRoute(n.routes, uri, req.verb.value, env.matcher), req, env)
  }

  /** An OPTIONS request is described unless it found a truthy handler reported under "options". */
  predicate Describes(found: Option<Found>, verb: string)
  {
    verb == "options" && (found.None? || !HandlerTruthy(found.value.handler) || found.value.verb != "options")
  }

  /** What `findRoute` found, acted upon. */
  function Answer(n: NodeView, uri: string, verb: string, found: Option<Found>, req: Request, env: Env): Dispatched
  {
    if Describes(found, verb) then Dispatched([], Description(n, uri, env))
    else if found.None? || !HandlerTruthy(found.value.handler) then Dispatched([], NoRoute(n, uri, env))
    else Bind(n, found.value, req, env)
  }

  /** A call of `send` or `sendException` as a reply. */
  function Delivered(s: Sending): Reply
  {
    match s
    case Emits(x) => Sent(x)
    case Throws(e) => Escaped(e)
  }

  /** The description of the node (or of the routes matching `uri`), sent as the data. */
  function Description(n: NodeView, uri: string, env: Env): Reply
  {
    match Inspector.DescribeTree(n, uri, false, env.matcher)
    case Fails(e) => Escaped(e)
    case Ok(d) => Delivered(Send(n.successWrapper, env.wrap, Arr(d)))
  }

  /** The reason of the 400 for a URL no route matches. */
  function NoRouteReason(uri: string): string
  {
    "There is no route for '" + uri + "'."
  }

  /**
   * No handler: a sub-controller gives up (false), the root calls its
   * fallback method when one is set (outside any try), else sends a 400.
   */
  function NoRoute(n: NodeView, uri: string, env: Env): Reply
  {
    if n.hasParent then Unclaimed
    else if Truthy(n.fallback) then
      match env.invoke(n.controller, Named(n.fallback), [])
      case Threw(e) => Escaped(e)
      case Returned(v) => Delivered(Send(n.successWrapper, env.wrap, v))
    else Sent(BadRequest("RouteNotFoundException", NoRouteReason(uri)))
  }

  /** Captured groups as string arguments. */
  function Strs(caps: seq<string>): (vs: seq<Value>)
    ensures |vs| == |caps| && forall i :: 0 <= i < |caps| ==> vs[i] == Str(caps[i])
  {
    if caps == [] then [] else Strs(caps[..|caps| - 1]) + [Str(caps[|caps| - 1])]
  }

  /** The arguments `run` puts first: "_all_" for a pattern's `_all_` handler, then the captures. */
  function Leading(f: Found): seq<Value>
  {
    (if f.verb == "_all_" then [Str("_all_")] else []) + Strs(f.captures)
  }

  /** `array_shift` applied `k` times. */
  function Drop<T>(s: seq<T>, k: nat): seq<T>
  {
    if k <= |s| then s[k..] else []
  }

  /**
   * The handler's declaration, the parameters left after the leading
   * arguments, the bound arguments, then the access hook and the call.
   */
  function Bind(n: NodeView, f: Found, req: Request, env: Env): Dispatched
  {
    match Inspector.Target(n.controller, f.handler)
    case None => Dispatched([], Sent(BadRequest("MethodNotFoundException", Inspector.NoMethodReason(f.handler.name, n.controller.className))))
    case Some(m) =>
      var params := Drop(if f.verb == "_all_" then Inspector.Shift(m.params) else m.params, |f.captures|);
      match Inspector.CollectSpec(params, |params|, req.query, req.body)
      case MissingArgument(e) => Dispatched([], Sent(e))
      case Arguments(xs) => Guarded(n, f.handler, Leading(f) + xs, req, env)
  }

  /**
   * The access hook, when set, sees the client URL and the arguments; an
   * `Exception` from it is reported with `sendException` and the handler
   * still runs, any other throwable escapes. PHP also passes `$route` as
   * the second argument, which is always `false` there, so `access` takes
   * only the URL and the arguments.
   */
  function Guarded(n: NodeView, h: Handler, args: seq<Value>, req: Request, env: Env): Dispatched
  {
    if n.checkAccess.None? then Dispatched([], Fire(n, h, args, env))
    else match env.access(n.checkAccess.value, req.url, args)
      case Returned(_) => Dispatched([], Fire(n, h, args, env))
      case Threw(e) =>
        if e.kind != AnException then Dispatched([], Escaped(e))
        else match SendException(n.exceptionHandler, env.observe, e, n.debug)
          case Throws(e2) => Dispatched([], Escaped(e2))
          case Emits(x) => Dispatched([x], Fire(n, h, args, env))
  }

  /** The reason of `fireMethod`'s 500 for a method name the controller lacks. */
  function MissingMethodReason(name: string, className: string): string
  {
    "Method " + name + " in class " + className + " not found."
  }

  /**
   * `fireMethod` on the node's controller: the handler's result is sent;
   * an `Exception` or `TypeError` from the handler or from `send` is
   * reported with `sendException`; an `Error` escapes.
   */
  function Fire(n: NodeView, h: Handler, args: seq<Value>, env: Env): Reply
  {
    if h.Named? && FindMethod(n.controller, h.name).None? then
      Sent(ServerError("MethodNotFoundException", MissingMethodReason(h.name, n.controller.className)))
    else match env.invoke(n.controller, h, args)
      case Threw(e) => Caught(n, e, env)
      case Returned(v) =>
        match Send(n.successWrapper, env.wrap, v)
        case Emits(x) => Sent(x)
        case Throws(e) => Caught(n, e, env)
  }

  /** The `catch (TypeError | InvalidArgumentException | Exception $e)` of `fireMethod`. */
  function Caught(n: NodeView, e: Thrown, env: Env): Reply
  {
    if e.kind == AnError then Escaped(e)
    else Delivered(SendException(n.exceptionHandler, env.observe, e, n.debug))
  }

  // ---------------------------------------------------------------------------
  // What run promises

  /** The loop from the `i`-th sub-controller on returns the answer of the first one that answers. */
  lemma {:induction false} FirstAnswerAt(n: NodeView, i: nat, j: nat, req: Request, env: Env)
    requires i <= j < |n.children| && Answered(Dispatch(n.children[j], req, env).reply)
    requires forall k :: i <= k < j ==> !Answered(Dispatch(n.children[k], req, env).reply)
    ensures FirstAnswer(n, i, req, env) == Some(Dispatch(n.children[j], req, env))
    decreases j - i
  {
    FirstAnswerStep(n, i, req, env, Dispatch(n.children[i], req, env));
    if i < j {
      FirstAnswerAt(n, i + 1, j, req, env);
    }
  }

  /** The first sub-controller, in registration order, that answers decides the reply of the whole node. */
  lemma {:induction false} FirstChildWins(n: NodeView, j: nat, req: Request, env: Env)
    requires j < |n.children| && Answered(Dispatch(n.children[j], req, env).reply)
    requires forall k :: 0 <= k < j ==> !Answered(Dispatch(n.children[k], req, env).reply)
    ensures Dispatch(n, req, env) == Dispatch(n.children[j], req, env)
  {
    FirstAnswerAt(n, 0, j, req, env);
    DispatchSplit(n, req, env);
  }

  /** The loop from the `i`-th sub-controller on falls through when none of them answers. */
  lemma {:induction false} FirstAnswerNone(n: NodeView, i: nat, req: Request, env: Env)
    requires i <= |n.children|
    requires forall k :: i <= k < |n.children| ==> !Answered(Dispatch(n.children[k], req, env).reply)
    ensures FirstAnswer(n, i, req, env) == None
    decreases |n.children| - i
  {
    if i < |n.children| {
      FirstAnswerStep(n, i, req, env, Dispatch(n.children[i], req, env));
      FirstAnswerNone(n, i + 1, req, env);
    }
  }

  /** When no sub-controller answers, the node answers itself. */
  lemma {:induction false} NoChildAnswers(n: NodeView, req: Request, env: Env)
    requires forall k :: 0 <= k < |n.children| ==> !Answered(Dispatch(n.children[k], req, env).reply)
    ensures Dispatch(n, req, env) == Local(n, req, env)
  {
    FirstAnswerNone(n, 0, req, env);
    DispatchSplit(n, req, env);
  }

  /** Whatever the loop returns is an answer. */
  lemma {:induction false} FirstAnswerAnswered(n: NodeView, i: nat, req: Request, env: Env)
    requires i <= |n.children| && FirstAnswer(n, i, req, env).Some?
    ensures Answered(FirstAnswer(n, i, req, env).value.reply)
    decreases |n.children| - i
  {
    FirstAnswerStep(n, i, req, env, Dispatch(n.children[i], req, env));
    if !Answered(Dispatch(n.children[i], req, env).reply) {
      FirstAnswerAnswered(n, i + 1, req, env);
    }
  }

  /**
   * `fireMethod` always answers: a 200 with the (wrapped) result or a 500,
   * or a throwable, and without an exception observer only an `Error`
   * escapes it. A method the controller lacks gives the 500 of `sendError`;
   * a returned value is sent as `data` (after the wrapper, when one is set
   * and returns); an `Exception` or `TypeError` the handler throws gives the
   * 500 envelope of `sendException` (when the observer, if any, returns);
   * an `Error` it throws escapes.
   */
  lemma {:induction false} FireAnswers(n: NodeView, h: Handler, args: seq<Value>, env: Env)
    ensures Answered(Fire(n, h, args, env))
    ensures Fire(n, h, args, env).Sent? ==> Fire(n, h, args, env).envelope.code == "200" || Fire(n, h, args, env).envelope.code == "500"
    ensures Fire(n, h, args, env).Escaped? && n.exceptionHandler.None? ==> Fire(n, h, args, env).e.kind == AnError
    ensures h.Named? && FindMethod(n.controller, h.name).None? ==>
            Fire(n, h, args, env) == Sent(ServerError("MethodNotFoundException", MissingMethodReason(h.name, n.controller.className)))
    ensures var o := env.invoke(n.controller, h, args);
            !(h.Named? && FindMethod(n.controller, h.name).None?) && o.Returned? && n.successWrapper.None? ==>
            Fire(n, h, args, env) == Sent(Success(o.v))
    ensures var o := env.invoke(n.controller, h, args);
            !(h.Named? && FindMethod(n.controller, h.name).None?) && o.Returned? && n.successWrapper.Some? &&
            env.wrap(n.successWrapper.value, o.v).Returned? ==>
            Fire(n, h, args, env) == Sent(Success(env.wrap(n.successWrapper.value, o.v).v))
    ensures var o := env.invoke(n.controller, h, args);
            !(h.Named? && FindMethod(n.controller, h.name).None?) && o.Threw? && o.e.kind != AnError &&
            (n.exceptionHandler.None? || env.observe(n.exceptionHandler.value, o.e).Returned?) ==>
            Fire(n, h, args, env) == Sent(Envelope("500", ExceptionMessage(o.e, n.debug)))
    ensures var o := env.invoke(n.controller, h, args);
            !(h.Named? && FindMethod(n.controller, h.name).None?) && o.Threw? && o.e.kind == AnError ==>
            Fire(n, h, args, env) == Escaped(o.e)
  {
    if !(h.Named? && FindMethod(n.controller, h.name).None?) {
      match env.invoke(n.controller, h, args)
      case Threw(e) =>
        assert Fire(n, h, args, env) == Caught(n, e, env);
      case Returned(v) =>
        match Send(n.successWrapper, env.wrap, v)
        case Emits(x) =>
          assert x == Success(if n.successWrapper.None? then v else env.wrap(n.successWrapper.value, v).v);
        case Throws(e) =>
          assert Fire(n, h, args, env) == Caught(n, e, env);
    }
  }

  /**
   * The access hook: the reply is an answer; at most one envelope goes out
   * before it, the 500 of an `Exception` the hook threw, and then the
   * handler still runs; a hook that throws anything else stops the call.
   */
  lemma {:induction false} GuardedAnswers(n: NodeView, h: Handler, args: seq<Value>, req: Request, env: Env)
    ensures var d := Guarded(n, h, args, req, env);
            Answered(d.reply) && |d.emitted| <= 1 &&
            (d.emitted != [] ==>
               n.checkAccess.Some? && env.access(n.checkAccess.value, req.url, args).Threw? &&
               d.emitted == [Envelope("500", ExceptionMessage(env.access(n.checkAccess.value, req.url, args).e, n.debug))] &&
               d.reply == Fire(n, h, args, env))
    ensures n.checkAccess.Some? && env.access(n.checkAccess.value, req.url, args).Threw? &&
            env.access(n.checkAccess.value, req.url, args).e.kind != AnException ==>
            Guarded(n, h, args, req, env) == Dispatched([], Escaped(env.access(n.checkAccess.value, req.url, args).e))
  {
    FireAnswers(n, h, args, env);
  }

  /** Once a route is found, the node answers: a 400, or what the access hook and the handler give. */
  lemma {:induction false} BindAnswers(n: NodeView, f: Found, req: Request, env: Env)
    ensures Answered(Bind(n, f, req, env).reply)
  {
    match Inspector.Target(n.controller, f.handler)
    case None =>
    case Some(m) =>
      var params := Drop(if f.verb == "_all_" then Inspector.Shift(m.params) else m.params, |f.captures|);
      match Inspector.CollectSpec(params, |params|, req.query, req.body)
      case MissingArgument(e) =>
      case Arguments(xs) =>
        GuardedAnswers(n, f.handler, Leading(f) + xs, req, env);
  }

  /**
   * The node's own part gives up (false, so the parent goes on) only on a
   * sub-controller, and exactly when the URL is under its trigger, the
   * method is known, the request is not described and no handler is found.
   */
  lemma {:induction false} LocalUnclaimed(n: NodeView, req: Request, env: Env)
    ensures Local(n, req, env).reply == Unclaimed <==>
            n.hasParent && LocalUri(n.trigger, req.url).Some? && req.verb.Some? &&
            var found := FindRoute(n.routes, LocalUri(n.trigger, req.url).value, req.verb.value, env.matcher);
            !Describes(found, req.verb.value) && (found.None? || !HandlerTruthy(found.value.handler))
  {
    match LocalUri(n.trigger, req.url)
    case None =>
    case Some(uri) =>
      if req.verb.Some? {
        var found := FindRoute(n.routes, uri, req.verb.value, env.matcher);
        if Describes(found, req.verb.value) {
          match Inspector.DescribeTree(n, uri, false, env.matcher)
          case Fails(e) =>
          case Ok(d) =>
            assert Description(n, uri, env) == Delivered(Send(n.successWrapper, env.wrap, Arr(d)));
        } else if found.Some? && HandlerTruthy(found.value.handler) {
          BindAnswers(n, found.value, req, env);
        } else if !n.hasParent {
          assert NoRoute(n, uri, env) != Unclaimed;
        }
      }
  }

  /** The root never returns false: it answers, or replies "" for a URL outside its trigger. */
  lemma {:induction false} RootNeverUnclaimed(n: NodeView, req: Request, env: Env)
    requires !n.hasParent
    ensures Dispatch(n, req, env).reply != Unclaimed
  {
    DispatchSplit(n, req, env);
    if FirstAnswer(n, 0, req, env).Some? {
      FirstAnswerAnswered(n, 0, req, env);
    } else {
      LocalUnclaimed(n, req, env);
    }
  }

  /** A URL outside the trigger is not this node's: the reply is "" and nothing is sent. */
  lemma {:induction false} OutsideTrigger(n: NodeView, req: Request, env: Env)
    requires !StartsWith(NormalizeUrl(req.url), n.trigger)
    ensures Local(n, req, env) == Dispatched([], Blank)
  {
  }

  /** The trigger is matched as a text prefix, not as path segments: "/api" serves "/apiary" with the route "ry". */
  lemma {:induction false} PrefixNotSegment()
    ensures LocalUri("/api", "/apiary") == Some("ry")
  {
    assert NormalizeUrl("/apiary") == "/apiary";
    assert StartsWith("/apiary", "/api");
  }

  /** A method the client cannot name (none, or not a string) fails `strtolower` under strict types. */
  lemma {:induction false} UnknownMethod(n: NodeView, req: Request, env: Env)
    requires LocalUri(n.trigger, req.url).Some? && req.verb.None?
    ensures Local(n, req, env) == Dispatched([], Escaped(MethodTypeError))
  {
  }

  /**
   * No handler for the route: the root without a fallback method sends a
   * 400 `RouteNotFoundException`, a sub-controller gives up.
   */
  lemma {:induction false} NoRouteReply(n: NodeView, req: Request, env: Env, uri: string, verb: string)
    requires LocalUri(n.trigger, req.url) == Some(uri) && req.verb == Some(verb) && verb != "options"
    requires FindRoute(n.routes, uri, verb, env.matcher).None?
    ensures !n.hasParent && !Truthy(n.fallback) ==>
            Local(n, req, env) == Dispatched([], Sent(BadRequest("RouteNotFoundException", NoRouteReason(uri))))
    ensures n.hasParent ==> Local(n, req, env) == Dispatched([], Unclaimed)
  {
  }

  /**
   * An OPTIONS request is described when no pattern holds an "options"
   * handler and the URI has no literal `_all_` handler; a pattern's `_all_`
   * handler does not prevent the description.
   */
  lemma {:induction false} OptionsDescribed(t: RouteTable, uri: string, matcher: Patterns.Matcher)
    requires forall j :: 0 <= j < |t| ==> !HasKey(t[j].1, "options")
    requires RouteHandler(t, uri, "_all_").None?
    ensures Describes(FindRoute(t, uri, "options", matcher), "options")
  {
    assert RouteHandler(t, uri, "options").None? by {
      var ms := MethodsOf(t, uri);
      if Find(t, uri).Some? {
        assert !HasKey(t[Find(t, uri).value].1, "options");
      }
    }
    if ScanRoutes(t, 0, uri, "options", matcher).Some? {
      ScanFound(t, 0, uri, "options", matcher);
    }
  }

  /**
   * A literal `_all_` handler answers OPTIONS like any other method: with
   * no "options" handler at the URI, the `_all_` handler is bound and fired
   * and the routes are not described.
   */
  lemma {:induction false} LiteralAllAnswersOptions(n: NodeView, uri: string, h: Handler, req: Request, env: Env)
    requires RouteHandler(n.routes, uri, "options").None?
    requires RouteHandler(n.routes, uri, "_all_") == Some(h) && HandlerTruthy(h)
    ensures Answer(n, uri, "options", FindRoute(n.routes, uri, "options", env.matcher), req, env) ==
            Bind(n, Found(h, [], "options", uri), req, env)
  {
  }

  /**
   * The leading arguments fill the declaration's first parameters: "_all_"
   * for a pattern's `_all_` handler, then one string per captured group;
   * the parameters left to collect are exactly the rest of the declaration.
   */
  lemma {:induction false} ArgumentLayout(f: Found, m: Callable)
    requires |Leading(f)| <= |m.params|
    ensures var k := if f.verb == "_all_" then 1 else 0;
            |Leading(f)| == k + |f.captures| &&
            (f.verb == "_all_" ==> Leading(f)[0] == Str("_all_")) &&
            (forall i :: 0 <= i < |f.captures| ==> Leading(f)[k + i] == Str(f.captures[i])) &&
            Drop(if f.verb == "_all_" then Inspector.Shift(m.params) else m.params, |f.captures|) == m.params[|Leading(f)|..]
  {
    var k := if f.verb == "_all_" then 1 else 0;
    var lead: seq<Value> := if f.verb == "_all_" then [Str("_all_")] else [];
    assert Leading(f) == lead + Strs(f.captures);
    forall i | 0 <= i < |f.captures|
      ensures Leading(f)[k + i] == Str(f.captures[i])
    {
      assert Leading(f)[k + i] == Strs(f.captures)[i];
    }
    if f.verb == "_all_" {
      assert Inspector.Shift(m.params) == m.params[1..];
      assert m.params[1..][|f.captures|..] == m.params[1 + |f.captures|..];
    }
  }

  /**
   * A method name the controller lacks: `run` sends a 400 before it calls
   * `fireMethod`, whose own check would send a 500 instead.
   */
  lemma {:induction false} MissingMethodReplies(n: NodeView, f: Found, args: seq<Value>, req: Request, env: Env)
    requires f.handler.Named? && FindMethod(n.controller, f.handler.name).None?
    ensures Bind(n, f, req, env) ==
            Dispatched([], Sent(BadRequest("MethodNotFoundException", Inspector.NoMethodReason(f.handler.name, n.controller.className))))
    ensures Fire(n, f.handler, args, env) ==
            Sent(ServerError("MethodNotFoundException", MissingMethodReason(f.handler.name, n.controller.className)))
  {
  }

  // ---------------------------------------------------------------------------
  // The steps of run as methods over a snapshot of the node

  /** The loop `for ($i = 0; $i < count($regexArguments); $i++) array_shift($params);`. */
  method ShiftCaptured(params: seq<Param>, k: nat) returns (r: seq<Param>)
    ensures r == Drop(params, k)
  {
    r := params;
    var i := 0;
    while i < k
      invariant i <= k && r == Drop(params, i)
    {
      r := Inspector.Shift(r);
      i := i + 1;
    }
  }

  /** `fireMethod($callableMethod, $this->controller, $arguments)`. */
  method FireMethod(n: NodeView, h: Handler, args: seq<Value>, env: Env) returns (r: Reply)
    ensures r == Fire(n, h, args, env)
  {
    if h.Named? && FindMethod(n.controller, h.name).None? {
      return Sent(ServerError("MethodNotFoundException", MissingMethodReason(h.name, n.controller.className)));
    }
    var out := env.invoke(n.controller, h, args);
    if out.Returned? {
      var s := Send(n.successWrapper, env.wrap, out.v);
      if s.Emits? {
        return Sent(s.envelope);
      }
      r := Caught(n, s.e, env);
    } else {
      r := Caught(n, out.e, env);
    }
  }

  /** The access hook, then the call. */
  method GuardAndFire(n: NodeView, h: Handler, args: seq<Value>, req: Request, env: Env) returns (d: Dispatched)
    ensures d == Guarded(n, h, args, req, env)
  {
    var emitted: seq<Envelope> := [];
    if n.checkAccess.Some? {
      var out := env.access(n.checkAccess.value, req.url, args);
      if out.Threw? {
        if out.e.kind != AnException {
          return Dispatched([], Escaped(out.e));
        }
        var s := SendException(n.exceptionHandler, env.observe, out.e, n.debug);
        if s.Throws? {
          return Dispatched([], Escaped(s.e));
        }
        emitted := [s.envelope];
      }
    }
    var r := FireMethod(n, h, args, env);
    d := Dispatched(emitted, r);
  }

  /** From a found route to the call: declaration, parameters, arguments. */
  method BindAndFire(n: NodeView, f: Found, req: Request, env: Env) returns (d: Dispatched)
    ensures d == Bind(n, f, req, env)
  {
    var scanned := Inspector.ScanClassMethods(n.controller, f.verb, f.handler);
    if scanned.NoSuchMethod? {
      return Dispatched([], Sent(scanned.envelope));
    }
    var params := ShiftCaptured(scanned.params, |f.captures|);
    var collected := Inspector.CollectArguments(params, req.query, req.body);
    if collected.MissingArgument? {
      return Dispatched([], Sent(collected.envelope));
    }
    var args := (if f.verb == "_all_" then [Str("_all_")] else []) + Strs(f.captures);
    d := GuardAndFire(n, f.handler, args + collected.args, req, env);
  }

  /** The OPTIONS branch: `describe`, then `send`. */
  method DescribeAndSend(n: NodeView, uri: string, env: Env) returns (r: Reply)
    ensures r == Description(n, uri, env)
  {
    var description := Inspector.Describe(n, uri, false, env.matcher);
    if description.Fails? {
      return Escaped(description.e);
    }
    r := Delivered(Send(n.successWrapper, env.wrap, Arr(description.value)));
  }

  /** The no-route branch. */
  method Unrouted(n: NodeView, uri: string, env: Env) returns (r: Reply)
    ensures r == NoRoute(n, uri, env)
  {
    if n.hasParent {
      return Unclaimed;
    }
    if !Truthy(n.fallback) {
      return Sent(BadRequest("RouteNotFoundException", NoRouteReason(uri)));
    }
    var out := env.invoke(n.controller, Named(n.fallback), []);
    if out.Threw? {
      return Escaped(out.e);
    }
    r := Delivered(Send(n.successWrapper, env.wrap, out.v));
  }

  /** What `run` does with the result of `findRoute`. */
  method AnswerRoute(n: NodeView, uri: string, verb: string, found: Option<Found>, req: Request, env: Env) returns (d: Dispatched)
    ensures d == Answer(n, uri, verb, found, req, env)
  {
    if Describes(found, verb) {
      var r := DescribeAndSend(n, uri, env);
      return Dispatched([], r);
    }
    if found.None? || !HandlerTruthy(found.value.handler) {
      var r := Unrouted(n, uri, env);
      return Dispatched([], r);
    }
    d := BindAndFire(n, found.value, req, env);
  }

  /** A sub-controller's router: no routes, and `describeRoutes` taken over only when the parent's is true. */
  method InheritRouter(parent: Router) returns (r: Router)
    ensures fresh(r) && r.routes == [] && r.fallbackMethod == "" && r.describeRoutes
  {
    r := new Router();
    if parent.describeRoutes {
      r.SetDescribeRoutes(parent.describeRoutes);
    }
  }

  /** A sub-controller's response settings: wrapper and observer when set, the status-code setting always. */
  method InheritResponse(parent: Response) returns (s: Response)
    ensures fresh(s)
    ensures s.successWrapper == parent.successWrapper && s.exceptionHandler == parent.exceptionHandler
    ensures s.withStatusCode == parent.withStatusCode
  {
    s := new Response();
    if parent.successWrapper.Some? {
      s.SetSuccessResponseWrapper(parent.successWrapper.value);
    }
    if parent.exceptionHandler.Some? {
      s.SetExceptionHandler(parent.exceptionHandler.value);
    }
    s.SetHttpStatusCodes(parent.withStatusCode);
  }

  /**
   * Sub-controllers `cs` held inside the footprint `S`, with trees `ts` and
   * client `c`: each is valid and keeps its whole footprint inside `S`. A
   * node passes its footprint without itself, so that a change to the
   * node's own fields leaves this intact.
   */
  ghost predicate Forest(cs: seq<Server>, S: set<object>, ts: seq<NodeView>, c: Clients.Client)
    reads S
    decreases S, 1
  {
    |ts| == |cs| &&
    forall i :: 0 <= i < |cs| ==>
      cs[i] in S && cs[i].Repr <= S && cs[i].Valid() && cs[i].Tree == ts[i] && cs[i].client == c
  }

  /** A valid sub-controller joins a forest, in a footprint that holds both. */
  lemma {:induction false} ForestGrows(cs: seq<Server>, S: set<object>, T: set<object>, ts: seq<NodeView>,
                                       cl: Clients.Client, c: Server)
    requires Forest(cs, S, ts, cl) && S <= T && c in T && c.Repr <= T && c.Valid() && c.client == cl
    ensures Forest(cs + [c], T, ts + [c.Tree], cl)
  {
    assert forall i :: 0 <= i < |cs| ==> (cs + [c])[i] == cs[i] && (ts + [c.Tree])[i] == ts[i];
  }

  /** The trees of the sub-controllers `cs`, computed. */
  function ViewsOf(cs: seq<Server>, ghost S: set<object>, ghost ts: seq<NodeView>, ghost c: Clients.Client): (vs: seq<NodeView>)
    requires Forest(cs, S, ts, c)
    reads S
    decreases S, 2, |cs|
    ensures vs == ts
  {
    if cs == [] then []
    else
      var k := |cs| - 1;
      assert ts == ts[..k] + [ts[k]];
      ViewsOf(cs[..k], S, ts[..k], c) + [cs[k].View()]
  }

  /** The node's own part of `run`, with its router and the shared client. */
  method ServeLocal(n: NodeView, router: Router, client: Clients.Client, incoming: Clients.Incoming,
                    body: seq<(string, string)>, env: Env) returns (d: Dispatched)
    requires router.routes == n.routes
    ensures d == Local(n, RequestOf(client, incoming, body), env)
  {
    var requested := client.url;
    var u := NormalizeUrl(requested);
    if !StartsWith(u, n.trigger) {
      return Dispatched([], Blank);
    }
    var endPos := if n.trigger == "/" then 1 else |n.trigger| + 1;
    var uri := if endPos <= |u| then u[endPos..] else "";
    if !Truthy(uri) {
      uri := "";
    }
    var verb := client.GetMethod(incoming);
    if verb.None? {
      return Dispatched([], Escaped(MethodTypeError));
    }
    var found := router.Locate(uri, verb.value, env.matcher);
    d := AnswerRoute(n, uri, verb.value, found, Request(requested, verb, incoming.query, body), env);
  }

  // ---------------------------------------------------------------------------
  // The live tree

  class Server {
    var trigger: string
    var controller: Controller
    var children: seq<Server>
    var hasParent: bool
    var checkAccess: Option<nat>
    var debug: bool
    var factory: Option<nat>
    var router: Router
    var response: Response
    var client: Clients.Client
    /** The node and its sub-tree as `run` and `describe` see them. */
    ghost var Tree: NodeView
    ghost var Repr: set<object>

    /**
     * The node owns itself, its router and response, and its sub-controllers'
     * footprints; the client is shared by the whole tree and owned by none.
     * `Tree` mirrors the node's fields and its sub-controllers' trees.
     */
    ghost predicate Valid()
      reads this, Repr
      decreases Repr, 0
    {
      this in Repr && router in Repr && response in Repr && client !in Repr &&
      Tree == NodeView(trigger, controller, router.routes, router.fallbackMethod, hasParent, checkAccess, debug,
                       response.successWrapper, response.exceptionHandler, response.withStatusCode, Tree.children) &&
      Forest(children, Repr - {this, router, response}, Tree.children, client)
    }

    /** `Tree`, computed. */
    function View(): (v: NodeView)
      requires Valid()
      reads this, Repr
      decreases Repr, 1
      ensures v == Tree
    {
      NodeView(trigger, controller, router.routes, router.fallbackMethod, hasParent, checkAccess, debug,
               response.successWrapper, response.exceptionHandler, response.withStatusCode,
               ViewsOf(children, Repr - {this, router, response}, Tree.children, client))
    }

    /** `new Server($trigger, $controller)`: a root, which creates the client and sets it (formats negotiated twice). */
    constructor Root(trigger: string, controller: Controller, incoming: Clients.Incoming)
      ensures Valid() && fresh(Repr) && fresh(client) && client.Valid()
      ensures Tree == NodeView(NormalizeUrl(trigger), controller, [], "", false, None, false, None, None, true, [])
      ensures factory.None? && router.describeRoutes
      ensures client.customMethod == ""
      ensures Clients.Negotiation(client.url, client.outputFormat) ==
              Clients.Negotiate(Clients.Negotiate(Clients.Negotiation(if incoming.pathInfo.Some? then incoming.pathInfo.value else "", "json"), incoming), incoming)
    {
      var r := new Router();
      var s := new Response();
      var c := new Clients.Client(incoming);
      c.SetupFormats(incoming);
      this.trigger := NormalizeUrl(trigger);
      this.controller := controller;
      children := [];
      hasParent := false;
      checkAccess := None;
      debug := false;
      factory := None;
      router := r;
      response := s;
      client := c;
      Tree := NodeView(NormalizeUrl(trigger), controller, [], "", false, None, false, None, None, true, []);
      Repr := {this, r, s};
    }

    /**
     * `new Server($trigger, $controller, $parent)`: shares and re-negotiates
     * the parent's client, and takes over each parent setting that is truthy,
     * the status-code setting always.
     */
    static method NewChild(trigger: string, controller: Controller, parent: Server, incoming: Clients.Incoming) returns (n: Server)
      requires parent.client.Valid()
      modifies parent.client
      ensures fresh(n) && n.Valid() && fresh(n.Repr) && n.client == parent.client && n.client.Valid()
      ensures n.Tree == NodeView(NormalizeUrl(trigger), controller, [], "", true, parent.checkAccess, parent.debug,
                                 parent.response.successWrapper, parent.response.exceptionHandler,
                                 parent.response.withStatusCode, [])
      ensures n.factory == parent.factory && n.router.describeRoutes
      ensures n.client.customMethod == old(parent.client.customMethod)
      ensures Clients.Negotiation(n.client.url, n.client.outputFormat) ==
              Clients.Negotiate(old(Clients.Negotiation(parent.client.url, parent.client.outputFormat)), incoming)
    {
      var c := parent.client;
      c.SetupFormats(incoming);
      n := new Server.Child(trigger, controller, parent);
    }

    /** The part of the child's construction that does not touch the client. */
    constructor Child(trigger: string, controller: Controller, parent: Server)
      ensures Valid() && fresh(Repr) && client == parent.client
      ensures Tree == NodeView(NormalizeUrl(trigger), controller, [], "", true, parent.checkAccess, parent.debug,
                               parent.response.successWrapper, parent.response.exceptionHandler,
                               parent.response.withStatusCode, [])
      ensures factory == parent.factory && router.describeRoutes
    {
      var r := InheritRouter(parent.router);
      var s := InheritResponse(parent.response);
      var access: Option<nat> := None;
      if parent.checkAccess.Some? {
        access := parent.checkAccess;
      }
      var debugging := false;
      if parent.debug {
        debugging := parent.debug;
      }
      var made: Option<nat> := None;
      if parent.factory.Some? {
        made := parent.factory;
      }
      this.trigger := NormalizeUrl(trigger);
      this.controller := controller;
      children := [];
      hasParent := true;
      checkAccess := access;
      debug := debugging;
      factory := made;
      router := r;
      response := s;
      client := parent.client;
      Tree := NodeView(NormalizeUrl(trigger), controller, [], "", true, access, debugging,
                       s.successWrapper, s.exceptionHandler, s.withStatusCode, []);
      Repr := {this, r, s};
    }

    /** `setCheckAccess`. */
    method SetCheckAccess(fn: nat)
      requires Valid()
      modifies this
      ensures Valid() && Tree == old(Tree).(checkAccess := Some(fn))
      ensures Repr == old(Repr) && children == old(children) && client == old(client) && factory == old(factory)
    {
      checkAccess := Some(fn);
      Tree := Tree.(checkAccess := Some(fn));
    }

    /** `setDebugMode`. */
    method SetDebugMode(b: bool)
      requires Valid()
      modifies this
      ensures Valid() && Tree == old(Tree).(debug := b)
      ensures Repr == old(Repr) && children == old(children) && client == old(client) && factory == old(factory)
    {
      debug := b;
      Tree := Tree.(debug := b);
    }

    /** `setTriggerUrl`: stored as given, without normalisation. */
    method SetTriggerUrl(url: string)
      requires Valid()
      modifies this
      ensures Valid() && Tree == old(Tree).(trigger := url)
      ensures Repr == old(Repr) && children == old(children) && client == old(client) && factory == old(factory)
    {
      trigger := url;
      Tree := Tree.(trigger := url);
    }

    /** `setControllerFactory`: kept for sub-controllers created later; `run` does not use it. */
    method SetControllerFactory(fn: nat)
      requires Valid()
      modifies this
      ensures Valid() && Tree == old(Tree) && factory == Some(fn)
      ensures Repr == old(Repr) && children == old(children) && client == old(client)
    {
      factory := Some(fn);
    }

    /**
     * `addRoute`, which `__call` hands to the router: the node's table gains
     * the handler under the pattern and the method, and nothing else changes.
     */
    method AddRoute(uri: string, cb: Handler, verb: string)
      requires Valid()
      modifies this, router
      ensures Valid() && Tree == old(Tree).(routes := SetRoute(old(Tree.routes), uri, verb, cb))
      ensures Repr == old(Repr) && children == old(children) && client == old(client) && factory == old(factory)
      ensures router == old(router) && router.describeRoutes == old(router.describeRoutes) && router.exclude == old(router.exclude)
    {
      router.AddRoute(uri, cb, verb);
      Tree := Tree.(routes := router.routes);
    }

    /** `addRoute` with the default method key, through `__call`. */
    method AddAnyRoute(uri: string, cb: Handler)
      requires Valid()
      modifies this, router
      ensures Valid() && Tree == old(Tree).(routes := SetRoute(old(Tree.routes), uri, "_all_", cb))
      ensures Repr == old(Repr) && children == old(children) && client == old(client) && factory == old(factory)
      ensures router == old(router) && router.describeRoutes == old(router.describeRoutes) && router.exclude == old(router.exclude)
    {
      AddRoute(uri, cb, "_all_");
    }

    /** `addGetRoute`, through `__call`. */
    method AddGetRoute(uri: string, cb: Handler)
      requires Valid()
      modifies this, router
      ensures Valid() && Tree == old(Tree).(routes := SetRoute(old(Tree.routes), uri, "get", cb))
      ensures Repr == old(Repr) && children == old(children) && client == old(client) && factory == old(factory)
      ensures router == old(router) && router.describeRoutes == old(router.describeRoutes) && router.exclude == old(router.exclude)
    {
      AddRoute(uri, cb, "get");
    }

    /** `addPostRoute`, through `__call`. */
    method AddPostRoute(uri: string, cb: Handler)
      requires Valid()
      modifies this, router
      ensures Valid() && Tree == old(Tree).(routes := SetRoute(old(Tree.routes), uri, "post", cb))
      ensures Repr == old(Repr) && children == old(children) && client == old(client) && factory == old(factory)
      ensures router == old(router) && router.describeRoutes == old(router.describeRoutes) && router.exclude == old(router.exclude)
    {
      AddRoute(uri, cb, "post");
    }

    /** `addPutRoute`, through `__call`. */
    method AddPutRoute(uri: string, cb: Handler)
      requires Valid()
      modifies this, router
      ensures Valid() && Tree == old(Tree).(routes := SetRoute(old(Tree.routes), uri, "put", cb))
      ensures Repr == old(Repr) && children == old(children) && client == old(client) && factory == old(factory)
      ensures router == old(router) && router.describeRoutes == old(router.describeRoutes) && router.exclude == old(router.exclude)
    {
      AddRoute(uri, cb, "put");
    }

    /** `addPatchRoute`, through `__call`. */
    method AddPatchRoute(uri: string, cb: Handler)
      requires Valid()
      modifies this, router
      ensures Valid() && Tree == old(Tree).(routes := SetRoute(old(Tree.routes), uri, "patch", cb))
      ensures Repr == old(Repr) && children == old(children) && client == old(client) && factory == old(factory)
      ensures router == old(router) && router.describeRoutes == old(router.describeRoutes) && router.exclude == old(router.exclude)
    {
      AddRoute(uri, cb, "patch");
    }

    /** `addHeadRoute`, through `__call`. */
    method AddHeadRoute(uri: string, cb: Handler)
      requires Valid()
      modifies this, router
      ensures Valid() && Tree == old(Tree).(routes := SetRoute(old(Tree.routes), uri, "head", cb))
      ensures Repr == old(Repr) && children == old(children) && client == old(client) && factory == old(factory)
      ensures router == old(router) && router.describeRoutes == old(router.describeRoutes) && router.exclude == old(router.exclude)
    {
      AddRoute(uri, cb, "head");
    }

    /** `addOptionsRoute`, through `__call`. */
    method AddOptionsRoute(uri: string, cb: Handler)
      requires Valid()
      modifies this, router
      ensures Valid() && Tree == old(Tree).(routes := SetRoute(old(Tree.routes), uri, "options", cb))
      ensures Repr == old(Repr) && children == old(children) && client == old(client) && factory == old(factory)
      ensures router == old(router) && router.describeRoutes == old(router.describeRoutes) && router.exclude == old(router.exclude)
    {
      AddRoute(uri, cb, "options");
    }

    /** `addDeleteRoute`, through `__call`. */
    method AddDeleteRoute(uri: string, cb: Handler)
      requires Valid()
      modifies this, router
      ensures Valid() && Tree == old(Tree).(routes := SetRoute(old(Tree.routes), uri, "delete", cb))
      ensures Repr == old(Repr) && children == old(children) && client == old(client) && factory == old(factory)
      ensures router == old(router) && router.describeRoutes == old(router.describeRoutes) && router.exclude == old(router.exclude)
    {
      AddRoute(uri, cb, "delete");
    }

    /**
     * `collectRoutes`, through `__call`: the router reads the node's
     * controller; with the exclusion '*' nothing changes, otherwise the table
     * is the fold over the public methods, stopped by the first `Error`.
     */
    method CollectRoutes() returns (error: Option<Thrown>)
      requires Valid()
      modifies this, router
      ensures Valid() && Tree == old(Tree).(routes := Tree.routes)
      ensures router.exclude.Everything? ==> Tree == old(Tree) && error.None?
      ensures router.exclude.Names? ==>
                var ms := PublicMethods(controller.methods);
                Collected(Tree.routes, error) == CollectFold(old(Tree.routes), ms, TargetsOf(ms), router.exclude, |ms|)
      ensures Repr == old(Repr) && children == old(children) && client == old(client) && factory == old(factory)
      ensures router == old(router) && router.describeRoutes == old(router.describeRoutes) && router.exclude == old(router.exclude)
    {
      error := router.CollectRoutes(controller);
      Tree := Tree.(routes := router.routes);
    }

    /** `setDescribeRoutes`, through `__call`: only the router's flag changes; `run` does not read it. */
    method SetDescribeRoutes(b: bool)
      requires Valid()
      modifies router
      ensures Valid() && Tree == old(Tree) && router.describeRoutes == b
      ensures router.exclude == old(router.exclude)
    {
      router.SetDescribeRoutes(b);
    }

    /** `getResponse()->setHttpStatusCodes($b)`. */
    method SetHttpStatusCodes(b: bool)
      requires Valid()
      modifies this, response
      ensures Valid() && Tree == old(Tree).(withStatusCode := b)
      ensures Repr == old(Repr) && children == old(children) && client == old(client) && factory == old(factory)
    {
      response.SetHttpStatusCodes(b);
      Tree := Tree.(withStatusCode := b);
    }

    /** `getResponse()->setSuccessResponseWrapper($fn)`. */
    method SetSuccessResponseWrapper(fn: nat)
      requires Valid()
      modifies this, response
      ensures Valid() && Tree == old(Tree).(successWrapper := Some(fn))
      ensures Repr == old(Repr) && children == old(children) && client == old(client) && factory == old(factory)
    {
      response.SetSuccessResponseWrapper(fn);
      Tree := Tree.(successWrapper := Some(fn));
    }

    /** `getResponse()->setExceptionHandler($fn)`. */
    method SetExceptionHandler(fn: nat)
      requires Valid()
      modifies this, response
      ensures Valid() && Tree == old(Tree).(exceptionHandler := Some(fn))
      ensures Repr == old(Repr) && children == old(children) && client == old(client) && factory == old(factory)
    {
      response.SetExceptionHandler(fn);
      Tree := Tree.(exceptionHandler := Some(fn));
    }

    /**
     * `addSubController`: a new child whose trigger is this node's trigger
     * (nothing for the root) followed by the normalised sub-path, appended
     * after the existing sub-controllers.
     */
    method AddSubController(sub: string, controller: Controller, incoming: Clients.Incoming) returns (c: Server)
      requires Valid() && client.Valid()
      modifies this, client
      ensures Valid() && client.Valid() && fresh(c.Repr) && Repr == old(Repr) + c.Repr
      ensures children == old(children) + [c] && c.Valid() && c.client == client
      ensures c.Tree == NodeView(NormalizeUrl((if old(trigger) == "/" then "" else old(trigger)) + NormalizeUrl(sub)), controller,
                                 [], "", true, old(checkAccess), old(debug), old(response.successWrapper),
                                 old(response.exceptionHandler), old(response.withStatusCode), [])
      ensures Tree == old(Tree).(children := old(Tree).children + [c.Tree])
      ensures client.customMethod == old(client.customMethod)
      ensures Clients.Negotiation(client.url, client.outputFormat) ==
              Clients.Negotiate(old(Clients.Negotiation(client.url, client.outputFormat)), incoming)
    {
      var path := NormalizeUrl(sub);
      var base := trigger;
      if base == "/" {
        base := "";
      }
      c := NewChild(base + path, controller, this, incoming);
      Attach(c);
    }

    /** `$this->controllers[] = $controller`: the new sub-controller goes last, and the others are left as they are. */
    method Attach(c: Server)
      requires Valid() && c.Valid() && c.client == client
      requires this !in c.Repr && router !in c.Repr && response !in c.Repr
      modifies this
      ensures Valid() && Repr == old(Repr) + c.Repr && children == old(children) + [c] && client == old(client)
      ensures Tree == old(Tree).(children := old(Tree).children + [c.Tree])
    {
      ghost var S := Repr - {this, router, response};
      children := children + [c];
      Repr := Repr + c.Repr;
      Tree := Tree.(children := Tree.children + [c.Tree]);
      ForestGrows(old(children), S, Repr - {this, router, response}, old(Tree.children), client, c);
    }

    /** `run`. */
    method Run(incoming: Clients.Incoming, body: seq<(string, string)>, env: Env) returns (d: Dispatched)
      requires Valid()
      ensures d == Dispatch(Tree, RequestOf(client, incoming, body), env)
      decreases Repr, 1
    {
      var v := View();
      ghost var req := RequestOf(client, incoming, body);
      var first := RunChildren(incoming, body, env);
      DispatchSplit(v, req, env);
      if first.Some? {
        return first.value;
      }
      d := ServeLocal(v, router, client, incoming, body, env);
    }

    /** The `foreach` over the sub-controllers. */
    method RunChildren(incoming: Clients.Incoming, body: seq<(string, string)>, env: Env) returns (first: Option<Dispatched>)
      requires Valid()
      ensures first == FirstAnswer(Tree, 0, RequestOf(client, incoming, body), env)
      decreases Repr, 0
    {
      ghost var req := RequestOf(client, incoming, body);
      var i := 0;
      while i < |children|
        invariant i <= |children|
        invariant FirstAnswer(Tree, i, req, env) == FirstAnswer(Tree, 0, req, env)
      {
        var r := children[i].Run(incoming, body, env);
        FirstAnswerStep(Tree, i, req, env, r);
        if Answered(r.reply) {
          return Some(r);
        }
        i := i + 1;
      }
      return None;
    }
  }
  /**
   * The basic use: a root on "/", a `post` route "login" to `postLogin`
   * registered through `__call`, then `run`, which dispatches over a table
   * holding exactly that route.
   */
  method RunWithRoute(controller: Controller, incoming: Clients.Incoming, body: seq<(string, string)>, env: Env)
    returns (s: Server, d: Dispatched)
    ensures s.Valid() && s.Tree.children == [] && s.Tree.trigger == "/"
    ensures s.Tree.routes == SetRoute([], "login", "post", Named("postLogin"))
    ensures d == Dispatch(s.Tree, RequestOf(s.client, incoming, body), env)
  {
    s := new Server.Root("/", controller, incoming);
    s.AddPostRoute("login", Named("postLogin"));
    d := s.Run(incoming, body, env);
  }

  /**
   * The sub-controller of the sub-controller test, made under a "/" root
   * (which counts as nothing in the trigger): trigger "/sub", a `post` route
   * "login" and no sub-controllers of its own. It is configured before it is
   * attached.
   */
  method LoginSubController(parent: Server, controller: Controller, incoming: Clients.Incoming) returns (c: Server)
    requires parent.client.Valid()
    modifies parent.client
    ensures c.Valid() && fresh(c.Repr) && c.client == parent.client
    ensures c.Tree.trigger == "/sub" && c.Tree.hasParent && c.Tree.children == []
    ensures c.Tree.routes == SetRoute([], "login", "post", Named("postLogin"))
  {
    var sub := NormalizeUrl("sub");
    assert sub == "/sub" by {
      assert "sub"[0] != '/' && "sub"[2] != '/';
    }
    assert NormalizeUrl("" + sub) == "/sub" by {
      assert ("" + sub)[0] == '/' && ("" + sub)[3] != '/';
    }
    c := Server.NewChild("" + sub, controller, parent, incoming);
    c.AddPostRoute("login", Named("postLogin"));
  }

  /** The tree of the sub-controller test with a "/" root: the root, with no routes, and that one sub-controller. */
  method BuildSubControllerTree(controller: Controller, incoming: Clients.Incoming) returns (s: Server)
    ensures s.Valid() && s.Tree.trigger == "/" && s.Tree.routes == [] && !s.Tree.hasParent
    ensures |s.Tree.children| == 1 && s.Tree.children[0].trigger == "/sub" && s.Tree.children[0].hasParent
    ensures s.Tree.children[0].routes == SetRoute([], "login", "post", Named("postLogin"))
    ensures s.Tree.children[0].children == []
  {
    s := new Server.Root("/", controller, incoming);
    assert NormalizeUrl("/") == "/";
    var c := LoginSubController(s, controller, incoming);
    s.Attach(c);
  }

  /** `run` on that tree dispatches over it: the sub-controller is tried first. */
  method RunWithSubController(controller: Controller, incoming: Clients.Incoming, body: seq<(string, string)>, env: Env)
    returns (s: Server, d: Dispatched)
    ensures s.Valid() && |s.Tree.children| == 1 && s.Tree.children[0].trigger == "/sub"
    ensures s.Tree.children[0].routes == SetRoute([], "login", "post", Named("postLogin"))
    ensures d == Dispatch(s.Tree, RequestOf(s.client, incoming, body), env)
  {
    s := BuildSubControllerTree(controller, incoming);
    d := s.Run(incoming, body, env);
  }
}
