/**
 * `Abigail\Kernel\Response`: the three envelope shapes the dispatcher sends
 * (success, client error, server error), the exception envelope, the
 * reason-phrase table, and the response settings a server node holds.
 */
module Responses {
  import opened Php
  import opened Model

  /** What `Client::sendResponse` is handed: the HTTP code as text and the message array. */
  datatype Envelope = Envelope(code: string, msg: seq<(Key, Value)>)

  /** The body of `send` once the data is final: code 200 and the single key `data`. */
  function Success(data: Value): Envelope
  {
    Envelope("200", [(KStr("data"), data)])
  }

  /** `{error, message}`: the shape `sendBadRequest` and `sendError` share. */
  function ErrorMessage(error: string, message: string): seq<(Key, Value)>
  {
    [(KStr("error"), Str(error)), (KStr("message"), Str(message))]
  }

  /** `sendBadRequest`. */
  function BadRequest(error: string, message: string): Envelope
  {
    Envelope("400", ErrorMessage(error, message))
  }

  /** `sendError`. */
  function ServerError(error: string, message: string): Envelope
  {
    Envelope("500", ErrorMessage(error, message))
  }

  /** The message of `sendException`: class and message, then file, line and trace in debug mode. */
  function ExceptionMessage(e: Thrown, debug: bool): seq<(Key, Value)>
  {
    ErrorMessage(e.className, e.message) +
    (if debug then [(KStr("file"), Str(e.file)), (KStr("line"), Int(e.line)), (KStr("trace"), Str(e.trace))] else [])
  }

  /** What a call to `send` or `sendException` comes to: an envelope for the client, or a throwable escaping from it. */
  datatype Sending = Emits(envelope: Envelope) | Throws(e: Thrown)

  /** `send`: the success wrapper, when one is set, rewrites the data first; what it throws escapes. */
  function Send(wrapper: Option<nat>, wrap: (nat, Value) -> Outcome, data: Value): (r: Sending)
  {
    if wrapper.None? then Emits(Success(data))
    else match wrap(wrapper.value, data)
      case Returned(v) => Emits(Success(v))
      case Threw(e) => Throws(e)
  }

  /**
   * `sendException`: the observer, when one is set, is called first and its
   * result dropped (what it throws escapes); the envelope is code 500 with
   * the exception's class and message.
   */
  function SendException(handler: Option<nat>, observe: (nat, Thrown) -> Outcome, e: Thrown, debug: bool): (r: Sending)
  {
    if handler.Some? && observe(handler.value, e).Threw? then Throws(observe(handler.value, e).e)
    else Emits(Envelope("500", ExceptionMessage(e, debug)))
  }

  /** Without a wrapper, `send` emits the data unchanged under `data` with code 200. */
  lemma {:induction false} SendUnwrapped(wrap: (nat, Value) -> Outcome, data: Value)
    ensures Send(None, wrap, data) == Emits(Envelope("200", [(KStr("data"), data)]))
  {
  }

  /** The wrapper's result, not the handler's, is what the client receives. */
  lemma {:induction false} SendWrapped(id: nat, wrap: (nat, Value) -> Outcome, data: Value)
    requires wrap(id, data).Returned?
    ensures Send(Some(id), wrap, data) == Emits(Envelope("200", [(KStr("data"), wrap(id, data).v)]))
  {
  }

  /**
   * The observer is called for its side effects only: whenever it returns,
   * the envelope is the one sent without an observer.
   */
  lemma {:induction false} ObserverIgnored(id: nat, observe: (nat, Thrown) -> Outcome, e: Thrown, debug: bool)
    requires observe(id, e).Returned?
    ensures SendException(Some(id), observe, e, debug) == SendException(None, observe, e, debug)
  {
  }

  /** The exception envelope: `error` and `message` first, then `file`, `line` and `trace` exactly in debug mode. */
  lemma {:induction false} ExceptionKeys(e: Thrown, debug: bool)
    ensures var m := ExceptionMessage(e, debug);
            Keys(m) == [KStr("error"), KStr("message")] + (if debug then [KStr("file"), KStr("line"), KStr("trace")] else []) &&
            m[0].1 == Str(e.className) && m[1].1 == Str(e.message)
  {
    var m := ExceptionMessage(e, debug);
    if debug {
      assert Keys(m) == [KStr("error"), KStr("message"), KStr("file"), KStr("line"), KStr("trace")];
    } else {
      assert Keys(m) == [KStr("error"), KStr("message")];
    }
  }

  /** `STATUS_CODES`: the reason phrases of section 6.1.1 of RFC 2616, and 509. */
  const STATUS_CODES: seq<(int, string)> := [
    (100, "Continue"), (101, "Switching Protocols"),
    (200, "OK"), (201, "Created"), (202, "Accepted"), (203, "Non-Authoritative Information"),
    (204, "No Content"), (205, "Reset Content"), (206, "Partial Content"),
    (300, "Multiple Choices"), (301, "Moved Permanently"), (302, "Found"), (303, "See Other"),
    (304, "Not Modified"), (305, "Use Proxy"), (307, "Temporary Redirect"),
    (400, "Bad Request"), (401, "Unauthorized"), (402, "Payment Required"), (403, "Forbidden"),
    (404, "Not Found"), (405, "Method Not Allowed"), (406, "Not Acceptable"),
    (407, "Proxy Authentication Required"), (408, "Request Timeout"), (409, "Conflict"),
    (410, "Gone"), (411, "Length Required"), (412, "Precondition Failed"),
    (413, "Request Entity Too Large"), (414, "Request-URI Too Long"), (415, "Unsupported Media Type"),
    (416, "Requested Range Not Satisfiable"), (417, "Expectation Failed"),
    (500, "Internal Server Error"), (501, "Not Implemented"), (502, "Bad Gateway"),
    (503, "Service Unavailable"), (504, "Gateway Timeout"), (505, "HTTP Version Not Supported"),
    (509, "Bandwidth Limit Exceeded")
  ]

  /** `STATUS_CODES[$code]`, None for a code the table lacks. */
  function StatusPhrase(code: int): Option<string>
  {
    Get(STATUS_CODES, code)
  }

  lemma {:induction false} PhraseNotFound()
    ensures StatusPhrase(404) == Some("Not Found")
  {
    assert STATUS_CODES[20] == (404, "Not Found");
    GetFirstAt(STATUS_CODES, 404, 20);
  }

  lemma {:induction false} PhraseOk()
    ensures StatusPhrase(200) == Some("OK")
  {
    assert STATUS_CODES[2] == (200, "OK");
    GetFirstAt(STATUS_CODES, 200, 2);
  }

  lemma {:induction false} PhraseMissing()
    ensures StatusPhrase(299) == None
  {
    assert forall j :: 0 <= j < |STATUS_CODES| ==> STATUS_CODES[j].0 != 299;
  }

  /** The settings of `Response` that the server copies to its sub-controllers. */
  class Response {
    var withStatusCode: bool
    var successWrapper: Option<nat>
    var exceptionHandler: Option<nat>

    /** Status codes on, no wrapper, no observer. */
    constructor()
      ensures withStatusCode && successWrapper == None && exceptionHandler == None
    {
      withStatusCode := true;
      successWrapper := None;
      exceptionHandler := None;
    }

    /** `setHttpStatusCodes`. */
    method SetHttpStatusCodes(b: bool)
      modifies this
      ensures withStatusCode == b
      ensures successWrapper == old(successWrapper) && exceptionHandler == old(exceptionHandler)
    {
      withStatusCode := b;
    }

    /** `setSuccessResponseWrapper`. */
    method SetSuccessResponseWrapper(fn: nat)
      modifies this
      ensures successWrapper == Some(fn)
      ensures withStatusCode == old(withStatusCode) && exceptionHandler == old(exceptionHandler)
    {
      successWrapper := Some(fn);
    }

    /** `setExceptionHandler`. */
    method SetExceptionHandler(fn: nat)
      modifies this
      ensures exceptionHandler == Some(fn)
      ensures withStatusCode == old(withStatusCode) && successWrapper == old(successWrapper)
    {
      exceptionHandler := Some(fn);
    }
  }
}
