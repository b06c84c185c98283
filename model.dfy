/**
 * What the dispatcher learns by reflection, as explicit descriptors: the
 * parameters of a handler, the methods of a controller class, and the
 * exceptions that travel through `run`.
 */
module Model {
  import opened Php
  import opened Patterns

  /**
   * A declared parameter (`ReflectionParameter`): its name, whether it is
   * optional (which for the non-variadic parameters modelled here is the same
   * as having a default value), the default, and whether it is typed `array`.
   */
  datatype Param = Param(name: string, optional: bool, default: Value, isArray: bool)

  /**
   * A method or closure (`ReflectionFunctionAbstract`): its name, its
   * parameters in declaration order, whether it is public, and the lines of
   * its file above the declaration as `File::readLines` returns them (each
   * with its line break), or None when the file cannot be opened.
   */
  datatype Callable = Callable(name: string, params: seq<Param>, isPublic: bool, linesAbove: Option<seq<string>>)

  /** A route target: a method name of the controller, or a closure. */
  datatype Handler = Named(name: string) | Closure(id: nat, fn: Callable)

  /** `!$callableMethod`: a method name is falsy when "" or "0"; a closure never is. */
  predicate HandlerTruthy(h: Handler)
  {
    h.Closure? || Truthy(h.name)
  }

  /** A controller object: its class name and its methods in declaration order. */
  datatype Controller = Controller(className: string, methods: seq<Callable>)

  /** PHP method names are case-insensitive: the same name up to ASCII case. */
  predicate SameMethodName(a: string, b: string)
  {
    Lower(a) == Lower(b)
  }

  /** `method_exists` / `ReflectionClass::getMethod`: the first method whose name matches up to case. */
  function FindMethod(c: Controller, name: string): (r: Option<Callable>)
    ensures r.Some? ==> r.value in c.methods && SameMethodName(r.value.name, name)
    ensures r.None? <==> forall m :: m in c.methods ==> !SameMethodName(m.name, name)
  {
    FindMethodIn(c.methods, name)
  }

  function FindMethodIn(ms: seq<Callable>, name: string): (r: Option<Callable>)
    ensures r.Some? ==> r.value in ms && SameMethodName(r.value.name, name)
    ensures r.None? <==> forall m :: m in ms ==> !SameMethodName(m.name, name)
  {
    if ms == [] then None
    else if SameMethodName(ms[0].name, name) then Some(ms[0])
    else FindMethodIn(ms[1..], name)
  }

  /**
   * Which `catch` clauses of the dispatcher see a throwable: an `Exception`
   * (including `InvalidArgumentException`), a `TypeError`, or another
   * `Error`, which none of them catches.
   */
  datatype Kind = AnException | ATypeError | AnError

  /** A throwable: class name, message, file, line, trace text and kind. */
  datatype Thrown = Thrown(className: string, message: string, file: string, line: int, trace: string, kind: Kind)

  /** The result of calling user code: a value, or a throwable. */
  datatype Outcome = Returned(v: Value) | Threw(e: Thrown)

  /**
   * `Router::$routes`: route pattern to (HTTP method key to handler), both
   * levels in insertion order.
   */
  type RouteTable = seq<(string, seq<(string, Handler)>)>

  /**
   * One server node as `run` and `describe` see it: its own settings, the
   * settings of its router and response, and its sub-controllers in
   * registration order. Hooks are named by number so that nodes can be compared.
   */
  datatype NodeView = NodeView(
    trigger: string,
    controller: Controller,
    routes: RouteTable,
    fallback: string,
    hasParent: bool,
    checkAccess: Option<nat>,
    debug: bool,
    successWrapper: Option<nat>,
    exceptionHandler: Option<nat>,
    withStatusCode: bool,
    children: seq<NodeView>)

  /**
   * What one request brings: the client's URL, the resolved HTTP method
   * (None when `getMethod` fails on a missing method, see the client model),
   * the query (`$_GET`) and the decoded body (`Request::$bodyData`).
   */
  datatype Request = Request(url: string, verb: Option<string>, query: seq<(string, Value)>, body: seq<(string, string)>)

  /**
   * The code the dispatcher calls but does not contain: the route regex
   * engine, controller methods and closures (the fallback method is a
   * controller method called without arguments), the access hook, the
   * success wrapper and the exception observer.
   */
  datatype Env = Env(
    matcher: Matcher,
    invoke: (Controller, Handler, seq<Value>) -> Outcome,
    access: (nat, string, seq<Value>) -> Outcome,
    wrap: (nat, Value) -> Outcome,
    observe: (nat, Thrown) -> Outcome)

  /** A value, or the throwable that escaped while computing it. */
  datatype Result<T> = Ok(value: T) | Fails(e: Thrown)

  /** A throwable the dispatcher or PHP itself raises (no file, line or trace is modelled for these). */
  function Raised(className: string, message: string, kind: Kind): Thrown
  {
    Thrown(className, message, "", 0, "", kind)
  }
}
