/** The correlation middleware of pkg/middleware.go: trace-id choice,
    content-type dispatch, bounded body capture, the per-hop log block, the
    `X-Source` handoff between hops and the one log line per request. */
module Middleware {
  import opened Wrappers
  import opened Headers
  import opened Json
  import opened Decimal
  import opened Fiber

  const HeaderTraceID := "Trace-Id"
  const HeaderErrSignature := "X-Error-Signature"
  const HeaderInternal := "X-Internal-Call"
  const HeaderSource := "X-Source"

  const HeaderContentType := "Content-Type"
  const JsonContentType := "application/json"
  /** Locals key under which a handler leaves its `ErrorContext`. */
  const ErrorContextKey := "errorContext"
  /** 64 << 10: bytes of a body looked at when capturing it. */
  const BodyLimit: nat := 65536

  // ----- the log record ---------------------------------------------------

  datatype BodyLog = BodyLog(headers: map<string, string>, body: Option<JsonObject>)

  /** One hop's block. Nullable fields of the Go struct are `Option`s. */
  datatype LogBlock = LogBlock(
    service: string,
    httpMethod: string,
    errorMessage: Option<string>,
    path: string,
    statusCode: string,
    code: string,
    file: Option<string>,
    request: Option<BodyLog>,
    response: Option<BodyLog>)

  datatype Log = Log(
    traceId: string,
    timestamp: string,
    durationMs: string,
    current: LogBlock,
    source: Option<LogBlock>)

  /** The `encoding/json` calls the middleware makes, left uninterpreted.
      `unmarshalBlock` gives what `json.Unmarshal` leaves in a fresh
      `LogBlock` (its error is only logged, so a partly filled block counts). */
  datatype JsonLibrary = JsonLibrary(
    valid: Bytes -> bool,
    unmarshalObject: Bytes -> Result<Option<JsonObject>, Error>,
    marshalBlock: LogBlock -> Result<string, Error>,
    unmarshalBlock: string -> LogBlock,
    marshalLog: Log -> Result<string, Error>)

  /** The clock readings of one request: the RFC 3339 start time and the
      whole milliseconds elapsed when the record is built. */
  datatype Clock = Clock(timestamp: string, elapsedMs: int)

  /** `string(jsonResp)` after `json.Marshal`: empty when marshalling failed. */
  function MarshalOrEmpty(m: Result<string, Error>): string
  {
    if m.Success? then m.value else ""
  }

  // ----- body capture -----------------------------------------------------

  /** `tryParseJSON`: a map only for non-empty, valid JSON that unmarshals
      into a `map[string]any`; nil (None) in every other case, including the
      JSON text `null`. */
  function TryParseJson(json: JsonLibrary, b: Bytes): (r: Option<JsonObject>)
    ensures |b| == 0 ==> r == None
    ensures !json.valid(b) ==> r == None
    ensures json.unmarshalObject(b).Failure? ==> r == None
    ensures r.Some? ==> |b| > 0 && json.valid(b) && json.unmarshalObject(b) == Success(r)
    ensures |b| > 0 && json.valid(b) && json.unmarshalObject(b).Success? ==> r == json.unmarshalObject(b).value
  {
    if |b| == 0 then None
    else if json.valid(b) && json.unmarshalObject(b).Success? then json.unmarshalObject(b).value
    else None
  }

  /** `readJSONMapLimited`: parses at most the first `limit` bytes. A map is
      captured only from a non-empty body whose window is valid JSON, so a
      zero limit captures nothing. */
  function ReadJsonMapLimited(json: JsonLibrary, b: Bytes, limit: nat): (r: Option<JsonObject>)
    ensures r.Some? ==> |b| > 0 && json.valid(Window(b, limit))
    ensures limit == 0 ==> r == None
  {
    TryParseJson(json, Window(b, limit))
  }

  /** The bytes capture is allowed to look at. */
  function Window(b: Bytes, limit: nat): Bytes
  {
    b[..if |b| < limit then |b| else limit]
  }

  /** Two bodies that agree on their first `limit` bytes are captured alike:
      nothing beyond the limit is ever inspected. */
  lemma ReadLimitedSeesOnlyWindow(json: JsonLibrary, b1: Bytes, b2: Bytes, limit: nat)
    requires Window(b1, limit) == Window(b2, limit)
    ensures ReadJsonMapLimited(json, b1, limit) == ReadJsonMapLimited(json, b2, limit)
  {
    assert |b1| <= limit ==> b1[..|b1|] == b1;
    assert |b2| <= limit ==> b2[..|b2|] == b2;
  }

  /** Within the limit, capture is exactly `tryParseJSON` of the whole body. */
  lemma ReadLimitedWithinLimit(json: JsonLibrary, b: Bytes, limit: nat)
    requires |b| <= limit
    ensures ReadJsonMapLimited(json, b, limit) == TryParseJson(json, b)
  {
    assert Window(b, limit) == b[..|b|] == b;
  }

  /** An oversize body whose first `limit` bytes are not valid JSON (a
      truncated document) is captured as absent, never as a partial object. */
  lemma ReadLimitedTruncatedIsAbsent(json: JsonLibrary, b: Bytes, limit: nat)
    requires |b| > limit && !json.valid(b[..limit])
    ensures ReadJsonMapLimited(json, b, limit) == None
  {
  }

  // ----- the per-hop log block --------------------------------------------

  /** `checkStatusCode2xx`. */
  function CheckStatusCode2xx(statusCode: int): bool
  {
    statusCode >= 200 && statusCode < 300
  }

  /** The statuses `checkStatusCode2xx` accepts are exactly the 2xx class:
      those whose decimal text, as a block records it, is three digits
      starting with '2'. */
  lemma StatusClassIsTwoHundreds(statusCode: int)
    ensures CheckStatusCode2xx(statusCode) <==> |Itoa(statusCode)| == 3 && Itoa(statusCode)[0] == '2'
  {
    if statusCode < 0 {
      assert Itoa(statusCode)[0] == '-';
    } else {
      ThreeDigits(statusCode);
      if 100 <= statusCode < 1000 {
        var d := statusCode / 100;
        assert DigitChar(d) == "0123456789"[d];
        assert DigitChar(d) == '2' <==> d == 2;
      }
    }
  }

  /** `c.Locals("errorContext").(ErrorContext)`: the stored context, or the
      zero value when the key is missing or holds another type. */
  function LookupErrorContext(locals: map<string, Local>): ErrorContext
  {
    if ErrorContextKey in locals && locals[ErrorContextKey].LocalErrorContext?
    then locals[ErrorContextKey].context
    else NoErrorContext
  }

  /** The error context a block reports: looked up only for a status outside
      200..299, empty otherwise. */
  function ErrorContextFor(status: int, locals: map<string, Local>): (ec: ErrorContext)
    ensures 200 <= status < 300 ==> ec == NoErrorContext
    ensures !(200 <= status < 300) && ErrorContextKey in locals && locals[ErrorContextKey].LocalErrorContext?
            ==> ec == locals[ErrorContextKey].context
    ensures !(ErrorContextKey in locals && locals[ErrorContextKey].LocalErrorContext?) ==> ec == NoErrorContext
  {
    if CheckStatusCode2xx(status) then NoErrorContext else LookupErrorContext(locals)
  }

  /** The `current` block a hop builds from the context before (`s`) and
      after (`out`) its handler ran. */
  function HopBlock(serviceName: string, s: CtxState, out: HandlerResult, json: JsonLibrary): (b: LogBlock)
    ensures b.request.Some? && b.response.Some? && b.errorMessage.Some?
    ensures Atoi(b.statusCode) == Some(out.status)
  {
    ItoaRoundTrip(out.status);
    var ec := ErrorContextFor(out.status, out.locals);
    LogBlock(
      service := serviceName,
      httpMethod := s.httpMethod,
      errorMessage := Some(ec.errorMessage),
      path := s.hostname + s.path,
      statusCode := Itoa(out.status),
      code := "",
      file := ec.filePath,
      request := Some(BodyLog(Snapshot(s.request, {HeaderTraceID}), ReadJsonMapLimited(json, s.requestBody, BodyLimit))),
      response := Some(BodyLog(Snapshot(out.response, {HeaderTraceID, HeaderSource}),
                               ReadJsonMapLimited(json, out.responseBody, BodyLimit))))
  }

  /** What a block records: the service name, method and host-plus-path of
      the request; the request headers but Trace-Id, the response headers but
      Trace-Id and X-Source (each with its last value); the request body as
      it stood before the handler and the response body after it, each read
      through the size-limited JSON reader; a status text that reads back as
      the status; and the error context stored by the handler, only for a
      non-2xx status. */
  lemma HopBlockContents(serviceName: string, s: CtxState, out: HandlerResult, json: JsonLibrary)
    ensures var b := HopBlock(serviceName, s, out, json);
      && b.request.Some? && b.response.Some?
      && (forall k :: k in b.request.value.headers <==> Has(s.request, k) && k != HeaderTraceID)
      && (forall k :: k in b.request.value.headers ==> b.request.value.headers[k] == Last(ValuesOf(s.request, k)))
      && (forall k :: k in b.response.value.headers <==>
            Has(out.response, k) && k != HeaderTraceID && k != HeaderSource)
      && (forall k :: k in b.response.value.headers ==> b.response.value.headers[k] == Last(ValuesOf(out.response, k)))
      && Atoi(b.statusCode) == Some(out.status)
      && b.service == serviceName && b.httpMethod == s.httpMethod && b.path == s.hostname + s.path
      && b.request.value.body == ReadJsonMapLimited(json, s.requestBody, BodyLimit)
      && b.response.value.body == ReadJsonMapLimited(json, out.responseBody, BodyLimit)
      && b.errorMessage == Some(ErrorContextFor(out.status, out.locals).errorMessage)
      && b.file == ErrorContextFor(out.status, out.locals).filePath
      && (200 <= out.status < 300 ==> b.errorMessage == Some("") && b.file == None)
      && (!(200 <= out.status < 300) && ErrorContextKey in out.locals
            && out.locals[ErrorContextKey].LocalErrorContext? ==>
            && b.errorMessage == Some(out.locals[ErrorContextKey].context.errorMessage)
            && b.file == out.locals[ErrorContextKey].context.filePath)
  {
    SnapshotContents(s.request, {HeaderTraceID});
    SnapshotContents(out.response, {HeaderTraceID, HeaderSource});
    ItoaRoundTrip(out.status);
  }

  // ----- the X-Source handoff ---------------------------------------------

  /** The X-Source handoff on the response header of a hop whose handler has
      run, and the `source` it yields for the record: an existing non-empty
      X-Source is decoded and left in place; otherwise the hop's own block is
      encoded into X-Source and `source` stays nil. X-Source then survives
      only on a response to an internal call. */
  function SourceHandoff(response: Header, current: LogBlock, internal: bool, json: JsonLibrary)
    : (r: (Header, Option<LogBlock>))
    ensures Has(r.0, HeaderSource) <==> internal
    ensures Peek(response, HeaderSource) != "" ==>
              && r.1 == Some(json.unmarshalBlock(Peek(response, HeaderSource)))
              && (internal ==> r.0 == response)
    ensures Peek(response, HeaderSource) == "" ==>
              && r.1 == None
              && (internal ==> Peek(r.0, HeaderSource) == MarshalOrEmpty(json.marshalBlock(current)))
    ensures forall k :: k != HeaderSource ==> ValuesOf(r.0, k) == ValuesOf(response, k)
  {
    var existing := Peek(response, HeaderSource);
    var handed :=
      if existing != "" then response
      else SetHeader(response, HeaderSource, MarshalOrEmpty(json.marshalBlock(current)));
    var source := if existing != "" then Some(json.unmarshalBlock(existing)) else None;
    (if internal then handed else Del(handed, HeaderSource), source)
  }

  // ----- one request --------------------------------------------------------

  /** The result of a hop: the context afterwards, the error returned, the
      record built and the line printed (None: nothing built or printed). */
  datatype HopOutcome = HopOutcome(state: CtxState, err: Option<Error>, record: Option<Log>, line: Option<string>)

  function LineList(line: Option<string>): seq<string>
  {
    if line.Some? then [line.value] else []
  }

  /** `HandleJSON` as a function of the context it starts from. */
  function JsonHop(s: CtxState, serviceName: string, next: Handler, json: JsonLibrary, clock: Clock): (o: HopOutcome)
    ensures o.record.Some? <==> next(s).err.None?
    ensures o.line.Some? <==> o.record.Some?
  {
    var out := next(s);
    var after := AfterHandler(s, out);
    if out.err.Some? then HopOutcome(after, out.err, None, None)
    else
      var current := HopBlock(serviceName, s, out, json);
      var (response, source) := SourceHandoff(out.response, current, Peek(s.request, HeaderInternal) == "true", json);
      var info := Log(Peek(s.request, HeaderTraceID), clock.timestamp, Itoa(clock.elapsedMs), current, source);
      var marshalled := json.marshalLog(info);
      HopOutcome(after.(response := response),
                 if marshalled.Failure? then Some(marshalled.error) else None,
                 Some(info),
                 Some(MarshalOrEmpty(marshalled)))
  }

  /** The trace id a hop uses: the inbound one when non-empty, else the
      generated one. */
  function ChosenTraceId(s: CtxState, generatedId: string): string
  {
    var inbound := Peek(s.request, HeaderTraceID);
    if inbound == "" then generatedId else inbound
  }

  /** The context after `NewLogger` fixed the trace id: the same id is the
      first Trace-Id of the request and of the response, nothing else moved. */
  function Entered(s: CtxState, generatedId: string): (r: CtxState)
    ensures Peek(r.request, HeaderTraceID) == ChosenTraceId(s, generatedId)
    ensures Peek(r.response, HeaderTraceID) == ChosenTraceId(s, generatedId)
    ensures forall k :: k != HeaderTraceID ==> ValuesOf(r.request, k) == ValuesOf(s.request, k)
    ensures forall k :: k != HeaderTraceID ==> ValuesOf(r.response, k) == ValuesOf(s.response, k)
    ensures ValuesOf(r.request, HeaderTraceID)
              == [ChosenTraceId(s, generatedId)]
                 + (if Has(s.request, HeaderTraceID) then ValuesOf(s.request, HeaderTraceID)[1..] else [])
    ensures ValuesOf(r.response, HeaderTraceID)
              == [ChosenTraceId(s, generatedId)]
                 + (if Has(s.response, HeaderTraceID) then ValuesOf(s.response, HeaderTraceID)[1..] else [])
    ensures r.requestBody == s.requestBody && r.status == s.status && r.locals == s.locals
    ensures r.httpMethod == s.httpMethod && r.hostname == s.hostname && r.path == s.path
    ensures r.responseBody == s.responseBody
  {
    var id := ChosenTraceId(s, generatedId);
    s.(request := SetHeader(s.request, HeaderTraceID, id), response := SetHeader(s.response, HeaderTraceID, id))
  }

  /** The handler `NewLogger` returns, run on one request. */
  function LoggerHop(s: CtxState, serviceName: string, generatedId: string, next: Handler, json: JsonLibrary, clock: Clock)
    : (o: HopOutcome)
    ensures o.record.Some? ==> Peek(s.request, HeaderContentType) == JsonContentType
    ensures o.line.Some? <==> o.record.Some?
  {
    var entered := Entered(s, generatedId);
    assert Peek(entered.request, HeaderContentType) == Peek(s.request, HeaderContentType);
    if Peek(entered.request, HeaderContentType) == JsonContentType then
      JsonHop(entered, serviceName, next, json, clock)
    else
      var out := next(entered);
      HopOutcome(AfterHandler(entered, out), out.err, None, None)
  }

  /** A handler error is returned as is, before any record is built or any
      line printed; the context is what the handler left. */
  lemma HandlerErrorEmitsNothing(s: CtxState, serviceName: string, next: Handler, json: JsonLibrary, clock: Clock)
    requires next(s).err.Some?
    ensures var o := JsonHop(s, serviceName, next, json, clock);
      && o.err == next(s).err && o.record == None && o.line == None
      && o.state == AfterHandler(s, next(s))
  {
  }

  /** A successful handler yields exactly one record and one printed line:
      the marshalled record, or an empty line together with the marshal error
      as the hop's result. The record carries the request's trace id, the
      clock readings and this hop's block. */
  lemma JsonHopEmitsOneRecord(s: CtxState, serviceName: string, next: Handler, json: JsonLibrary, clock: Clock)
    requires next(s).err.None?
    ensures var o := JsonHop(s, serviceName, next, json, clock);
      && o.record.Some?
      && o.record.value.traceId == Peek(s.request, HeaderTraceID)
      && o.record.value.timestamp == clock.timestamp
      && Atoi(o.record.value.durationMs) == Some(clock.elapsedMs)
      && o.record.value.current == HopBlock(serviceName, s, next(s), json)
      && o.line == Some(MarshalOrEmpty(json.marshalLog(o.record.value)))
      && o.err == (if json.marshalLog(o.record.value).Failure? then Some(json.marshalLog(o.record.value).error) else None)
      && o.state.status == next(s).status && o.state.locals == next(s).locals
      && o.state == AfterHandler(s, next(s)).(response := o.state.response)
  {
    ItoaRoundTrip(clock.elapsedMs);
  }

  /** After a successful handler, X-Source is on the final response exactly
      when the inbound X-Internal-Call is "true"; every other header key keeps
      the values the handler left. */
  lemma JsonHopVisibility(s: CtxState, serviceName: string, next: Handler, json: JsonLibrary, clock: Clock)
    requires next(s).err.None?
    ensures var o := JsonHop(s, serviceName, next, json, clock);
      && (Has(o.state.response, HeaderSource) <==> Peek(s.request, HeaderInternal) == "true")
      && (forall k :: k != HeaderSource ==> ValuesOf(o.state.response, k) == ValuesOf(next(s).response, k))
  {
  }

  /** A hop whose response already carries a non-empty X-Source (copied up by
      the relay) records its decoding as `source` and forwards it unchanged to
      an internal caller. */
  lemma JsonHopForwardsSource(s: CtxState, serviceName: string, next: Handler, json: JsonLibrary, clock: Clock)
    requires next(s).err.None? && Peek(next(s).response, HeaderSource) != ""
    ensures var o := JsonHop(s, serviceName, next, json, clock);
      && o.record.Some?
      && o.record.value.source == Some(json.unmarshalBlock(Peek(next(s).response, HeaderSource)))
      && (Peek(s.request, HeaderInternal) == "true" ==> o.state.response == next(s).response)
  {
  }

  /** A leaf hop (no X-Source from downstream) leaves `source` nil in its own
      record; only the header gets the encoded copy of its block. */
  lemma JsonHopLeafSelfCopy(s: CtxState, serviceName: string, next: Handler, json: JsonLibrary, clock: Clock)
    requires next(s).err.None? && Peek(next(s).response, HeaderSource) == ""
    ensures var o := JsonHop(s, serviceName, next, json, clock);
      && o.record.Some? && o.record.value.source == None
      && (Peek(s.request, HeaderInternal) == "true" ==>
            Peek(o.state.response, HeaderSource) == MarshalOrEmpty(json.marshalBlock(o.record.value.current)))
  {
  }

  /** `NewLogger` keeps a non-empty inbound Trace-Id and otherwise uses the
      generated one; the handler sees that id first on both the request and
      the response, and the record carries it. */
  lemma LoggerTraceId(s: CtxState, serviceName: string, generatedId: string, next: Handler, json: JsonLibrary, clock: Clock)
    ensures Peek(s.request, HeaderTraceID) != "" ==> ChosenTraceId(s, generatedId) == Peek(s.request, HeaderTraceID)
    ensures Peek(s.request, HeaderTraceID) == "" ==> ChosenTraceId(s, generatedId) == generatedId
    ensures var o := LoggerHop(s, serviceName, generatedId, next, json, clock);
      && Peek(o.state.request, HeaderTraceID) == ChosenTraceId(s, generatedId)
      && (o.record.Some? ==> o.record.value.traceId == ChosenTraceId(s, generatedId))
  {
  }

  /** Only a Content-Type of exactly "application/json" enters `HandleJSON`;
      any other request just runs the handler: no capture, no record, no
      line, the handler's error returned. */
  lemma LoggerDispatch(s: CtxState, serviceName: string, generatedId: string, next: Handler, json: JsonLibrary, clock: Clock)
    ensures var entered := Entered(s, generatedId);
      var o := LoggerHop(s, serviceName, generatedId, next, json, clock);
      && (Peek(s.request, HeaderContentType) == JsonContentType ==> o == JsonHop(entered, serviceName, next, json, clock))
      && (Peek(s.request, HeaderContentType) != JsonContentType ==>
            && o.record == None && o.line == None
            && o.err == next(entered).err
            && o.state == AfterHandler(entered, next(entered)))
  {
    assert Peek(Entered(s, generatedId).request, HeaderContentType) == Peek(s.request, HeaderContentType);
  }

  /** A JSON content type with parameters is not "application/json": such a
      request is passed through without a record. */
  lemma CharsetJsonBypasses(s: CtxState, serviceName: string, generatedId: string, next: Handler, json: JsonLibrary, clock: Clock)
    requires Peek(s.request, HeaderContentType) == "application/json; charset=utf-8"
    ensures LoggerHop(s, serviceName, generatedId, next, json, clock).record == None
  {
    LoggerDispatch(s, serviceName, generatedId, next, json, clock);
  }

  /** `HandleJSON`. */
  method HandleJSON(c: Ctx, serviceName: string, next: Handler, json: JsonLibrary, clock: Clock, sink: Sink)
    returns (err: Option<Error>, record: Option<Log>)
    modifies c, sink
    ensures var o := JsonHop(old(c.State()), serviceName, next, json, clock);
      && c.State() == o.state && err == o.err && record == o.record
      && sink.lines == old(sink.lines) + LineList(o.line)
  {
    ghost var s := c.State();
    var payload := ReadJsonMapLimited(json, c.requestBody, BodyLimit);
    var requestHeaders := VisitSnapshot(c.request, {HeaderTraceID});

    var handlerErr := c.Next(next);
    if handlerErr.Some? {
      return handlerErr, None;
    }

    var responsePayload := ReadJsonMapLimited(json, c.responseBody, BodyLimit);
    var responseHeaders := VisitSnapshot(c.response, {HeaderTraceID, HeaderSource});

    var errorContext := NoErrorContext;
    if !CheckStatusCode2xx(c.status) {
      errorContext := LookupErrorContext(c.locals);
    }

    var current := LogBlock(
      service := serviceName,
      httpMethod := c.httpMethod,
      path := c.hostname + c.path,
      statusCode := Itoa(c.status),
      request := Some(BodyLog(requestHeaders, payload)),
      response := Some(BodyLog(responseHeaders, responsePayload)),
      errorMessage := Some(errorContext.errorMessage),
      file := errorContext.filePath,
      code := "");
    assert current == HopBlock(serviceName, s, next(s), json);

    var info := Log(Peek(c.request, HeaderTraceID), clock.timestamp, Itoa(clock.elapsedMs), current, None);

    var existing := Peek(c.response, HeaderSource);
    if existing != "" {
      info := info.(source := Some(json.unmarshalBlock(existing)));
    } else {
      // the self-copy is built field by field, equal to `current`
      var selfCopy := LogBlock(
        service := serviceName,
        httpMethod := c.httpMethod,
        path := c.hostname + c.path,
        statusCode := Itoa(c.status),
        file := errorContext.filePath,
        errorMessage := Some(errorContext.errorMessage),
        request := Some(BodyLog(requestHeaders, payload)),
        response := Some(BodyLog(responseHeaders, responsePayload)),
        code := "");
      c.response := SetHeader(c.response, HeaderSource, MarshalOrEmpty(json.marshalBlock(selfCopy)));
    }

    if Peek(c.request, HeaderInternal) != "true" {
      c.response := Del(c.response, HeaderSource);
    }

    var marshalled := json.marshalLog(info);
    sink.Println(MarshalOrEmpty(marshalled));
    err := if marshalled.Failure? then Some(marshalled.error) else None;
    record := Some(info);
  }

  /** The handler `NewLogger(serviceName)` returns, applied to one request;
      `generatedId` is the text of the UUID v7 it would draw. */
  method NewLogger(c: Ctx, serviceName: string, generatedId: string, next: Handler, json: JsonLibrary, clock: Clock, sink: Sink)
    returns (err: Option<Error>, record: Option<Log>)
    modifies c, sink
    ensures var o := LoggerHop(old(c.State()), serviceName, generatedId, next, json, clock);
      && c.State() == o.state && err == o.err && record == o.record
      && sink.lines == old(sink.lines) + LineList(o.line)
  {
    var traceId := Peek(c.request, HeaderTraceID);
    if traceId == "" {
      traceId := generatedId;
    }
    ghost var s := c.State();
    c.request := SetHeader(c.request, HeaderTraceID, traceId);
    c.response := SetHeader(c.response, HeaderTraceID, traceId);
    assert c.State() == Entered(s, generatedId);
    if Peek(c.request, HeaderContentType) == JsonContentType {
      err, record := HandleJSON(c, serviceName, next, json, clock, sink);
    } else {
      err := c.Next(next);
      record := None;
    }
  }
}
