# Call-chain logger core, modelled in Dafny

This project models the correlation core of a Go call-chain logger built on
fiber. Each service hop wraps its requests in a logging middleware. The
middleware fixes a trace id and captures the request and response of a JSON
request. It builds one log block per hop and prints one log line per request.
A hop hands its block to its caller in the `X-Source` response header. The
downstream relay makes the outbound HTTP call. It forwards the caller's
headers with the `X-Internal-Call` marker and copies the callee's response
headers, `X-Source` included, back onto this hop's response.

Layout (one module per file):

- `Wrappers.dfy`: `Option`, `Result` and Go's `error`.
- `Headers.dfy`: the two header stores.
  - A fasthttp header is a list of lines. `Peek` reads the first value of a key, `Set` overwrites the first line of a key, `Del` removes every line of a key, and `Add` appends a line.
  - A net/http header is a map from key to a list of values.
  - Also here: the `VisitAll`-into-a-map loop and fiber's `GetReqHeaders`.
- `Decimal.dfy`: `strconv.Itoa` and the parser that reads its text back.
- `Json.dfy`: bytes and parsed JSON values.
- `Fiber.dfy`: the request context as a class whose fields the core updates in place, the wrapped handler (`c.Next()`) as an injected function, and the log sink.
- `Middleware.dfy`: `pkg/middleware.go`. The `Log` / `LogBlock` / `BodyLog` records, body capture, the per-hop block, the `X-Source` handoff, `HandleJSON` and the handler `NewLogger` returns.
- `Relay.dfy`: `pkg/apicaller.go`, that is `DownStreamHttp` and the loops inside it, plus a two-hop lemma.

The imperative operations are methods on the context: `NewLogger`,
`HandleJSON`, `DownStreamHttp` and their loops. Each method is proved equal
to a pure function of the old state (`LoggerHop`, `JsonHop`) or against
predicates (`MarkedCopy`, `CopiedCalleeHeaders`). The lemmas state what the
source promises about those functions.

Behaviour modelled as the code is written:

- A leaf hop leaves `Log.Source` nil. Only the `X-Source` header gets the encoded copy of its own block.
- A handler error is returned before any record is built or any line is printed.
- An error from `json.Marshal` of the final record is returned as the middleware's result, after an empty line is printed.
- A callee status other than 200 replaces `Data` with a zero value. No error is returned for it.
- The callee's headers are copied before its body is decoded, so a decode error leaves them copied.
- `X-Internal-Call: true` is added once per inbound header key.
- The relay stores the call site under the locals key `filePath`. The middleware reads only `errorContext`, so a call site reaches `LogBlock.File` only through an `ErrorContext` that a handler stores.

## Model

| member | source | states |
|---|---|---|
| `Headers.Peek` | pkg/middleware.go:115 | `Peek` gives the first value stored under the key, or "" when the key has no line |
| `Headers.SetHeader` | pkg/middleware.go:28-29 | `Set` puts the value first under the key, keeps later duplicates and leaves every other key's values as they were |
| `Headers.Del` | pkg/middleware.go:141-143 | `Del` removes every value of the key and no value of any other key |
| `Headers.AddLineValues` | pkg/apicaller.go:43 | fasthttp `Add` appends the value to that key's values and to no other key's |
| `Headers.Add` | pkg/apicaller.go:28-30 | net/http `Add` appends the value to that key's list and to no other key's |
| `Headers.VisitSnapshot` | pkg/middleware.go:68-73 | the `VisitAll` loop builds a map with exactly the present, non-excluded keys, each holding the last value of that key |
| `Headers.SnapshotContents` | pkg/middleware.go:81-86 | the snapshot has every present key except the excluded ones, each with its last value |
| `Headers.GroupedContents` | pkg/apicaller.go:27 | `GetReqHeaders` maps each key to all its values in line order, and lists only keys that are present |
| `Decimal.NatToDecimalValue` | pkg/middleware.go:111 | the decimal text of a natural number is non-empty, all digits, and reads back as the number |
| `Decimal.ItoaRoundTrip` | pkg/middleware.go:101 | `strconv.Itoa` text parses back to the same integer, so a recorded status code determines the status |
| `Middleware.TryParseJson` | pkg/middleware.go:165-174 | empty input, input that is not valid JSON and input that does not unmarshal into a map all give nil; otherwise the result is the unmarshalled map |
| `Middleware.ReadLimitedSeesOnlyWindow` | pkg/middleware.go:158-163 | two bodies that agree on their first `limit` bytes are captured alike |
| `Middleware.ReadLimitedWithinLimit` | pkg/middleware.go:159-162 | a body within the limit is captured as `tryParseJSON` of the whole body |
| `Middleware.ReadLimitedTruncatedIsAbsent` | pkg/middleware.go:159-162 | an oversize body whose first `limit` bytes are not valid JSON is captured as absent |
| `Middleware.ReadJsonMapLimited` | pkg/middleware.go:158-163 | a map is captured only from a non-empty body whose first `limit` bytes are valid JSON; a zero limit captures nothing |
| `Middleware.StatusClassIsTwoHundreds` | pkg/middleware.go:154-156 | `checkStatusCode2xx` holds exactly for the 2xx class: statuses whose decimal text is three digits starting with '2' |
| `Middleware.ErrorContextFor` | pkg/middleware.go:88-95 | for a 200..299 status the error context stays empty; otherwise it is the `ErrorContext` stored under "errorContext", or the zero value when none is stored |
| `Middleware.HopBlock` | pkg/middleware.go:97-106 | every block has its request capture, response capture and error message set (none of the Go references is nil), and its status text reads back as the handler's status |
| `Middleware.HopBlockContents` | pkg/middleware.go:65-106 | the block names the service, the request method and host-plus-path; it has every request key but Trace-Id and every response key but Trace-Id and X-Source, each with its last value; its request body is the size-limited JSON reading of the body before the handler ran and its response body that of the body after; its status text reads back as the status; its error message and file come from the handler's stored error context for a non-2xx status, and are "" and no file for a 2xx status |
| `Middleware.SourceHandoff` | pkg/middleware.go:115-143 | X-Source is on the final response iff the call is internal. A non-empty X-Source is decoded into `source` and kept unchanged. Otherwise X-Source gets the encoding of the hop's own block and `source` stays nil. Every other header is untouched |
| `Middleware.Entered` | pkg/middleware.go:23-29 | after the trace-id step, the chosen id is the first Trace-Id of both the request and the response, any later Trace-Id lines stay, and no other header value, body, method, host, path, status or local changes |
| `Middleware.HandlerErrorEmitsNothing` | pkg/middleware.go:75-77 | a handler error is returned as is, with no record and no printed line |
| `Middleware.JsonHopEmitsOneRecord` | pkg/middleware.go:108-113 | after a successful handler there is exactly one record, carrying the request's Trace-Id, the clock readings and the hop's block. The printed line is the marshalled record, or "" when marshalling fails; the result is that marshal error, or nil. Nothing but the response header changes after the handler: the request side, method, host and path stay as they came in, and the status, body and locals are what the handler left |
| `Middleware.JsonHopVisibility` | pkg/middleware.go:141-143 | X-Source is on the final response iff the inbound X-Internal-Call is exactly "true"; every other header keeps the handler's values |
| `Middleware.JsonHopForwardsSource` | pkg/middleware.go:115-121 | an existing non-empty X-Source is decoded into `Log.Source` and forwarded unchanged to an internal caller |
| `Middleware.JsonHopLeafSelfCopy` | pkg/middleware.go:122-139 | a leaf hop leaves `Log.Source` nil; an internal caller receives the encoding of the leaf's own block in X-Source |
| `Middleware.LoggerTraceId` | pkg/middleware.go:23-29 | a non-empty inbound Trace-Id is kept, otherwise the generated id is used; the request keeps that id and the record carries it |
| `Middleware.LoggerDispatch` | pkg/middleware.go:30-35 | only a Content-Type of exactly "application/json" runs `HandleJSON`; any other request just runs the handler, with no record and no line, and returns the handler's error |
| `Middleware.CharsetJsonBypasses` | pkg/middleware.go:30-31 | "application/json; charset=utf-8" produces no record |
| `Middleware.JsonHop` | pkg/middleware.go:65-152 | a record is built exactly when the handler succeeded, and a line is printed exactly when a record is built |
| `Middleware.LoggerHop` | pkg/middleware.go:21-37 | a record exists only for a request whose Content-Type is exactly "application/json", and a line is printed exactly when a record is built |
| `Middleware.HandleJSON` | pkg/middleware.go:65-152 | the context, the result, the record and the printed line are those of `JsonHop` on the entry state |
| `Middleware.NewLogger` | pkg/middleware.go:21-37 | the context, the result, the record and the printed line are those of `LoggerHop` on the entry state |
| `Relay.CallSiteReadsBack` | pkg/apicaller.go:61 | the call-site text is the file name, a ':' and decimal text that reads back as the line |
| `Relay.AddValues` | pkg/apicaller.go:29-31 | the inner loop appends exactly the key's values, in order, to that key |
| `Relay.OutboundHeaders` | pkg/apicaller.go:27-32 | every inbound key but X-Internal-Call keeps its values. X-Internal-Call is, in order, i+1 "true"s (i the number of keys visited before X-Internal-Call), the inbound X-Internal-Call values in their order, then one "true" for each remaining key; without an inbound X-Internal-Call it is one "true" per key. So it holds the inbound values plus one "true" per inbound key, is present iff the inbound request had a header, and then starts with "true" whatever the map order |
| `Relay.CalleeSeesInternalMarker` | pkg/apicaller.go:27-31 | when the caller's inbound request had any header, including X-Internal-Call values of its own (a middle hop, or a client-sent marker), the callee's first X-Internal-Call value is "true" |
| `Relay.CalleeKeepsTraceId` | pkg/apicaller.go:27-31 | a callee whose request carries the Trace-Id values of the marked copy of a hop's entered request (pkg/middleware.go:23-29) chooses that hop's trace id, whatever id the callee would have generated |
| `Relay.AddCalleeValues` | pkg/apicaller.go:41-45 | one callee key's values are appended in order, or none when the key is Trace-Id |
| `Relay.CopyCalleeHeaders` | pkg/apicaller.go:40-46 | the old response lines stay first; after them come exactly the callee's values of every key except Trace-Id, each key's values in order |
| `Relay.CopyKeepsTraceId` | pkg/apicaller.go:42 | the copy never changes this hop's Trace-Id values; every other key gains the callee's values |
| `Relay.LeafBlockReachesCaller` | pkg/apicaller.go:40-46 | in a chain A -> B where B is a leaf, A's handoff decodes exactly B's encoded block as `source`, and shows X-Source upward only if A was called internally |
| `Relay.DownStreamHttp` | pkg/apicaller.go:14-65 | errors come in a fixed order. A marshal or request-building error returns before any header is touched. A transport error leaves the response as it was. Otherwise the callee's headers are copied, then the slot is decoded, and a decode error is returned. A non-200 status zeroes `Data` with no error. Last comes the runtime.Caller error, or `filePath` is stored and nil returned |
| `Fiber.Ctx.Next` | pkg/middleware.go:75 | the handler's result replaces the response side of the context and leaves the request side alone |
| `Fiber.Sink.Println` | pkg/middleware.go:150 | a printed line is appended to the output |

## Left out

- UUID v7 generation and the wall clock are injected. `NewLogger` takes the text of the generated id. `HandleJSON` takes a `Clock` holding the RFC 3339 start time and the elapsed milliseconds.
- `encoding/json` is not modelled: `json.Valid`, `json.Unmarshal`, `json.Marshal` and the response decoder are uninterpreted functions. No encode/decode round trip is claimed.
- The `log.Printf` diagnostics are left out. They change no state.
- `fmt.Println` is modelled as appending to the sink's list of lines.
- The network call, `http.NewRequestWithContext`, the request's cancellation context and `runtime.Caller` are injected outcomes (`RoundTrip`). A cancellation shows up as a transport error.
- The `req` payload of `DownStreamHttp` is represented only by the outcome of marshalling it.
- `StandardResponse[T]`, `ErrorContext`, `NewErrorResponse` and `NewSuccessResponse` are not part of this model. Of `StandardResponse[T]`, only `Data` is modelled; its other members are an opaque JSON object. Of `ErrorContext`, only `ErrorMessage` and `FilePath` are modelled.
- fasthttp's special header fields are treated as ordinary lines, in the request header as well as the response header, and header keys are assumed to be already in canonical form.
  - The request's special fields are Host, Content-Length, Content-Type, User-Agent and Cookie. The response's include Content-Type, Content-Length, Server and Set-Cookie.
  - fasthttp keeps these in dedicated fields. So `Headers.Peek` of Content-Type (the dispatch in `NewLogger`) reads that field rather than a first line.
  - fasthttp reports these fields first, and merges cookies into one `Cookie` line. `Headers.Snapshot`, `Headers.VisitSnapshot` (`VisitAll`) and `Headers.Grouped` (`GetReqHeaders`) do not model either.
- The wrapped handler may change only the response side of the context: header, status, body and locals.
- A handler's status is taken as the value fasthttp's `StatusCode()` reports. A stored 0 reads as 200 there; the model does not map 0 to 200 itself and relies on handlers never leaving 0.
- Go's map iteration order is left unspecified. The model picks keys with `:|`, so the relay's contracts hold for every order.
- How the callee's response-header values of different keys interleave on this hop's response is therefore not fixed either.
- `Middleware.ReadJsonMapLimited` takes a natural-number limit. A negative limit would panic in Go, but only 65536 is ever passed.
- `HeaderErrSignature` is declared in the source but never used.
- Concurrency between requests is not modelled. Each request owns its context.
- The business handlers and the process start-up in `cmd/` are not part of this model.
