/** The per-request fiber context the middleware and the relay work on, and
    the log sink. The router, the server and the wrapped handler are outside
    the model: the handler is an injected function of the context. */
module Fiber {
  import opened Wrappers
  import opened Headers
  import opened Json

  /** The two fields of `ErrorContext` the middleware reads; the type itself is
      declared in a file that is not part of this model. */
  datatype ErrorContext = ErrorContext(errorMessage: string, filePath: Option<string>)

  /** Go's zero `ErrorContext{}`. */
  const NoErrorContext := ErrorContext("", None)

  /** A value stored with `c.Locals(key, value)`. */
  datatype Local =
    | LocalErrorContext(context: ErrorContext)
    | LocalString(text: string)
    | LocalOther

  /** Everything of a context the core reads or writes. `status` is the
      response status as fasthttp's `StatusCode()` reports it: a stored 0 is
      reported as 200, so it is never 0. */
  datatype CtxState = CtxState(
    request: Header,
    requestBody: Bytes,
    httpMethod: string,
    hostname: string,
    path: string,
    response: Header,
    status: int,
    responseBody: Bytes,
    locals: map<string, Local>)

  /** What the rest of the chain (`c.Next()`) leaves in the context, and the
      error it returns; `status` is as `StatusCode()` reports it, never 0. */
  datatype HandlerResult = HandlerResult(
    response: Header,
    status: int,
    responseBody: Bytes,
    locals: map<string, Local>,
    err: Option<Error>)

  /** The rest of the handler chain, as a function of the context it is given. */
  type Handler = CtxState -> HandlerResult

  /** The context after the handler ran: the request side is untouched. */
  function AfterHandler(s: CtxState, out: HandlerResult): CtxState
  {
    s.(response := out.response, status := out.status, responseBody := out.responseBody, locals := out.locals)
  }

  class Ctx {
    var request: Header
    var requestBody: Bytes
    var httpMethod: string
    var hostname: string
    var path: string
    var response: Header
    var status: int
    var responseBody: Bytes
    var locals: map<string, Local>

    /** A fresh context for an inbound request: fiber starts the response at
        status 200 with no header lines, no body and no locals. */
    constructor (request: Header, requestBody: Bytes, httpMethod: string, hostname: string, path: string)
      ensures State() == CtxState(request, requestBody, httpMethod, hostname, path, [], 200, [], map[])
    {
      this.request := request;
      this.requestBody := requestBody;
      this.httpMethod := httpMethod;
      this.hostname := hostname;
      this.path := path;
      response := [];
      status := 200;
      responseBody := [];
      locals := map[];
    }

    function State(): CtxState
      reads this
    {
      CtxState(request, requestBody, httpMethod, hostname, path, response, status, responseBody, locals)
    }

    /** `c.Next()`: runs the rest of the chain on this context. */
    method Next(next: Handler) returns (err: Option<Error>)
      modifies this
      ensures State() == AfterHandler(old(State()), next(old(State())))
      ensures err == next(old(State())).err
    {
      var out := next(State());
      response, status, responseBody, locals := out.response, out.status, out.responseBody, out.locals;
      err := out.err;
    }
  }

  /** Standard output, where `fmt.Println` writes one log line per request. */
  class Sink {
    var lines: seq<string>

    constructor ()
      ensures lines == []
    {
      lines := [];
    }

    method Println(line: string)
      modifies this
      ensures lines == old(lines) + [line]
    {
      lines := lines + [line];
    }
  }
}
