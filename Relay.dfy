/** The downstream relay of pkg/apicaller.go (`DownStreamHttp`): the outbound
    request with the caller's headers and the internal-call marker, the
    callee's response headers copied onto this hop's response, the typed
    response slot, and the call site left in the context. The JSON encoder and
    decoder, the network round trip and `runtime.Caller` are injected. */
module Relay {
  import opened Wrappers
  import opened Headers
  import opened Json
  import opened Decimal
  import opened Fiber
  import opened Middleware

  const CallerFailed := Error("runtime.Caller failed")
  /** Locals key of the call site string. */
  const FilePathKey := "filePath"
  /** `http.StatusOK`. */
  const StatusOK := 200

  datatype OutboundRequest = OutboundRequest(httpMethod: string, url: string, body: Bytes, headers: MultiMap)

  datatype CalleeResponse = CalleeResponse(status: int, headers: MultiMap, body: Bytes)

  /** What `runtime.Caller(1)` reports when it succeeds. */
  datatype CallSite = CallSite(file: string, line: int)

  /** The contents of a `StandardResponse[T]`: its `Data` field and, as
      `fields`, the members that type has besides `Data` (the type is
      declared in a file that is not part of this model). */
  datatype Envelope<T> = Envelope(data: Option<T>, fields: JsonObject)

  /** The outcomes of the library and network calls of one relay call:
      `json.Marshal(req)`, the error of `http.NewRequestWithContext`,
      `client.Do` as a function of the request it is given, the JSON decoder
      run over the callee's body into the current slot contents (it returns
      what the slot holds afterwards and its error), and `runtime.Caller(1)`. */
  datatype RoundTrip<!T> = RoundTrip(
    marshal: Result<Bytes, Error>,
    buildError: Option<Error>,
    send: OutboundRequest -> Result<CalleeResponse, Error>,
    decode: (Bytes, Envelope<T>) -> (Envelope<T>, Option<Error>),
    caller: Option<CallSite>)

  /** The caller's `*StandardResponse[T]`, written in place. */
  class StandardResponse<T> {
    var data: Option<T>
    var fields: JsonObject

    constructor (data: Option<T>, fields: JsonObject)
      ensures Contents() == Envelope(data, fields)
    {
      this.data := data;
      this.fields := fields;
    }

    function Contents(): Envelope<T>
      reads this
    {
      Envelope(data, fields)
    }
  }

  /** `fmt.Sprintf("%s:%d", file, line)`. */
  function FormatCallSite(site: CallSite): string
  {
    site.file + ":" + Itoa(site.line)
  }

  /** The call-site text splits back, at the character after the file name,
      into the file and the line number. */
  lemma CallSiteReadsBack(site: CallSite)
    ensures var text := FormatCallSite(site);
      && text[..|site.file|] == site.file
      && text[|site.file|] == ':'
      && Atoi(text[|site.file| + 1..]) == Some(site.line)
  {
    var text := FormatCallSite(site);
    assert text[|site.file| + 1..] == Itoa(site.line);
    ItoaRoundTrip(site.line);
  }

  // ----- outbound request headers -----------------------------------------

  /** `n` copies of `x`. */
  function Repeat(x: string, n: nat): seq<string>
  {
    if n == 0 then [] else Repeat(x, n - 1) + [x]
  }

  lemma {:induction false} RepeatOnly(x: string, n: nat)
    ensures |Repeat(x, n)| == n
    ensures forall v :: v in multiset(Repeat(x, n)) ==> v == x
  {
    if n > 0 {
      RepeatOnly(x, n - 1);
    }
  }

  /** `Repeat` splits at any point. */
  lemma {:induction false} RepeatSplit(x: string, a: nat, b: nat)
    ensures Repeat(x, a) + Repeat(x, b) == Repeat(x, a + b)
  {
    if b > 0 {
      RepeatSplit(x, a, b - 1);
      calc {
        Repeat(x, a) + Repeat(x, b);
        Repeat(x, a) + (Repeat(x, b - 1) + [x]);
        (Repeat(x, a) + Repeat(x, b - 1)) + [x];
        Repeat(x, a + b - 1) + [x];
      }
    }
  }

  /** A marker list that a reader peeking its first value sees as "true". */
  predicate StartsTrue(values: seq<string>)
  {
    values != [] && values[0] == "true"
  }

  /** The marker values when the inbound request carried X-Internal-Call
      itself: `i + 1` "true"s (the keys visited up to and including the
      marker key), the inbound marker values in order, then one "true" for
      each of the remaining keys. */
  ghost predicate MarkerAt(inbound: MultiMap, marks: seq<string>, i: nat)
  {
    && HeaderInternal in inbound && i < |inbound.Keys|
    && marks == Repeat("true", i + 1) + inbound[HeaderInternal] + Repeat("true", |inbound.Keys| - 1 - i)
  }

  /** The outbound header is the inbound one with the marker added: every
      other key keeps its values in order. X-Internal-Call holds one "true"
      per inbound key, with the inbound marker values, in order, placed right
      after the "true" of the marker key's own visit; the map order decides
      only where that is. Hence its values are the inbound ones plus one
      "true" per key, and the first is "true" as soon as there was a key. */
  ghost predicate MarkedCopy(inbound: MultiMap, out: MultiMap)
  {
    && (forall k :: k != HeaderInternal ==> Get(out, k) == Get(inbound, k))
    && (HeaderInternal in inbound ==> exists i: nat :: MarkerAt(inbound, Get(out, HeaderInternal), i))
    && (HeaderInternal !in inbound ==> Get(out, HeaderInternal) == Repeat("true", |inbound.Keys|))
    && multiset(Get(out, HeaderInternal))
         == multiset(Get(inbound, HeaderInternal)) + multiset(Repeat("true", |inbound.Keys|))
    && (|inbound.Keys| > 0 ==> StartsTrue(Get(out, HeaderInternal)))
    && (forall k :: k in out ==> out[k] != [])
  }

  /** The inner loop: `reqHttp.Header.Add(key, value)` for each value. */
  method AddValues(m: MultiMap, key: string, values: seq<string>) returns (out: MultiMap)
    requires forall k :: k in m ==> m[k] != []
    ensures Get(out, key) == Get(m, key) + values
    ensures forall k :: k != key ==> Get(out, k) == Get(m, k)
    ensures forall k :: k in out ==> out[k] != []
  {
    out := m;
    var j := 0;
    while j < |values|
      invariant 0 <= j <= |values|
      invariant Get(out, key) == Get(m, key) + values[..j]
      invariant forall k :: k != key ==> Get(out, k) == Get(m, k)
      invariant forall k :: k in out ==> out[k] != []
    {
      out := Add(out, key, values[j]);
      assert values[..j + 1] == values[..j] + [values[j]];
      j := j + 1;
    }
    assert values[..j] == values;
  }

  /** Visiting one more key marks one more key as done. */
  lemma MarkStep(keys: set<string>, pending: set<string>, key: string)
    requires pending <= keys && key in pending
    ensures |keys - (pending - {key})| == |keys - pending| + 1
  {
    var done := keys - pending;
    assert keys - (pending - {key}) == done + {key};
    assert key !in done;
  }

  /** The inbound X-Internal-Call values already copied: all of them once the
      marker key itself was visited, none before. */
  function MarkerBase(inbound: MultiMap, pending: set<string>): seq<string>
  {
    if HeaderInternal in pending then [] else Get(inbound, HeaderInternal)
  }

  /** The marker values after the keys outside `pending` were visited: `a`
      "true"s, the inbound marker values if the marker key was visited, and
      the "true"s of the keys visited after it. */
  ghost predicate MarkerSplit(inbound: MultiMap, pending: set<string>, marks: seq<string>, a: nat)
  {
    && pending <= inbound.Keys
    && a <= |inbound.Keys - pending|
    && marks == Repeat("true", a) + MarkerBase(inbound, pending) + Repeat("true", |inbound.Keys - pending| - a)
    && (HeaderInternal in inbound.Keys - pending ==> a >= 1)
  }

  /** The outbound header after the keys outside `pending` were visited. */
  ghost predicate MarkedSoFar(inbound: MultiMap, pending: set<string>, out: MultiMap)
  {
    && pending <= inbound.Keys
    && (forall k :: k != HeaderInternal ==> Get(out, k) == if k in pending then [] else Get(inbound, k))
    && (exists a: nat :: MarkerSplit(inbound, pending, Get(out, HeaderInternal), a))
    && (forall k :: k in out ==> out[k] != [])
  }

  /** Visiting `key` (marker first, then its values) keeps `MarkedSoFar`. */
  lemma MarkedStep(inbound: MultiMap, pending: set<string>, key: string, out: MultiMap, next: MultiMap)
    requires MarkedSoFar(inbound, pending, out) && key in pending
    requires Get(next, key) == Get(Add(out, HeaderInternal, "true"), key) + inbound[key]
    requires forall k :: k != key ==> Get(next, k) == Get(Add(out, HeaderInternal, "true"), k)
    requires forall k :: k in next ==> next[k] != []
    ensures MarkedSoFar(inbound, pending - {key}, next)
  {
    MarkerAfterVisit(out, key, inbound[key], next);
    MarkedStepOthers(inbound, pending, key, out, next);
    MarkStep(inbound.Keys, pending, key);
    var a: nat :| MarkerSplit(inbound, pending, Get(out, HeaderInternal), a);
    var a' := MarkerSplitStep(inbound, pending, key, Get(out, HeaderInternal), Get(next, HeaderInternal), a);
  }

  /** The marker values after one more visit: the marker key's visit puts
      its values after all "true"s so far and its own; any other key's visit
      adds one "true" at the end. */
  lemma MarkerSplitStep(inbound: MultiMap, pending: set<string>, key: string, marks: seq<string>, next: seq<string>,
                        a: nat)
    returns (a': nat)
    requires key in pending
    requires MarkerSplit(inbound, pending, marks, a)
    requires next == marks + ["true"] + (if key == HeaderInternal then inbound[key] else [])
    requires |inbound.Keys - (pending - {key})| == |inbound.Keys - pending| + 1
    ensures MarkerSplit(inbound, pending - {key}, next, a')
  {
    var d := |inbound.Keys - pending|;
    if key == HeaderInternal {
      assert MarkerBase(inbound, pending) == [];
      RepeatSplit("true", a, d - a);
      assert marks == Repeat("true", d);
      a' := d + 1;
      assert MarkerBase(inbound, pending - {key}) == inbound[key];
      assert next == Repeat("true", a') + MarkerBase(inbound, pending - {key}) + Repeat("true", 0);
    } else {
      a' := a;
      assert MarkerBase(inbound, pending - {key}) == MarkerBase(inbound, pending);
      assert Repeat("true", d + 1 - a) == Repeat("true", d - a) + ["true"];
      assert next == Repeat("true", a) + MarkerBase(inbound, pending) + Repeat("true", d + 1 - a);
    }
  }

  /** The marker values after visiting `key`: one "true", then the key's own
      values when the key is the marker itself. */
  lemma MarkerAfterVisit(out: MultiMap, key: string, values: seq<string>, next: MultiMap)
    requires Get(next, key) == Get(Add(out, HeaderInternal, "true"), key) + values
    requires forall k :: k != key ==> Get(next, k) == Get(Add(out, HeaderInternal, "true"), k)
    ensures Get(next, HeaderInternal)
              == Get(out, HeaderInternal) + ["true"] + (if key == HeaderInternal then values else [])
  {
    var marked := Add(out, HeaderInternal, "true");
    assert Get(marked, HeaderInternal) == Get(out, HeaderInternal) + ["true"];
  }

  lemma MarkedStepOthers(inbound: MultiMap, pending: set<string>, key: string, out: MultiMap, next: MultiMap)
    requires pending <= inbound.Keys && key in pending
    requires forall k :: k != HeaderInternal ==> Get(out, k) == if k in pending then [] else Get(inbound, k)
    requires Get(next, key) == Get(Add(out, HeaderInternal, "true"), key) + inbound[key]
    requires forall k :: k != key ==> Get(next, k) == Get(Add(out, HeaderInternal, "true"), k)
    ensures forall k :: k != HeaderInternal ==> Get(next, k) == if k in pending - {key} then [] else Get(inbound, k)
  {
    forall k | k != HeaderInternal
      ensures Get(next, k) == if k in pending - {key} then [] else Get(inbound, k)
    {
      if k == key {
        assert Get(next, k) == Get(out, k) + inbound[key];
      }
    }
  }

  /** One turn of the outer loop: the marker, then the values of `key`. */
  method VisitKey(inbound: MultiMap, pending: set<string>, key: string, out: MultiMap) returns (next: MultiMap)
    requires MarkedSoFar(inbound, pending, out) && key in pending
    ensures MarkedSoFar(inbound, pending - {key}, next)
  {
    var marked := Add(out, HeaderInternal, "true");
    next := AddValues(marked, key, inbound[key]);
    MarkedStep(inbound, pending, key, out, next);
  }

  /** The two loops that fill `reqHttp.Header` from `c.GetReqHeaders()`:
      for each key, in Go's unspecified map order, one `X-Internal-Call: true`
      and then every value of that key. */
  method OutboundHeaders(inbound: MultiMap) returns (out: MultiMap)
    ensures MarkedCopy(inbound, out)
    ensures HeaderInternal in out <==> |inbound.Keys| > 0
  {
    out := map[];
    var pending := inbound.Keys;
    MarkedStart(inbound);
    while pending != {}
      invariant MarkedSoFar(inbound, pending, out)
      decreases |pending|
    {
      var key :| key in pending;
      out := VisitKey(inbound, pending, key, out);
      pending := pending - {key};
    }
    MarkedComplete(inbound, out);
  }

  /** Before the loop nothing is visited. */
  lemma MarkedStart(inbound: MultiMap)
    ensures MarkedSoFar(inbound, inbound.Keys, map[])
  {
    assert inbound.Keys - inbound.Keys == {};
    assert MarkerSplit(inbound, inbound.Keys, Get(map[], HeaderInternal), 0);
  }

  /** Once every key is visited, the outbound header is the marked copy, and
      it has a marker exactly when the inbound request had a header. */
  lemma MarkedComplete(inbound: MultiMap, out: MultiMap)
    requires MarkedSoFar(inbound, {}, out)
    ensures MarkedCopy(inbound, out)
    ensures HeaderInternal in out <==> |inbound.Keys| > 0
  {
    assert inbound.Keys - {} == inbound.Keys;
    MarkerComplete(inbound, Get(out, HeaderInternal));
  }

  /** The marker values once every key is visited: the exact order, the
      tally, and a "true" first whenever there was a key. */
  lemma MarkerComplete(inbound: MultiMap, marks: seq<string>)
    requires exists a: nat :: MarkerSplit(inbound, {}, marks, a)
    ensures HeaderInternal in inbound ==> exists i: nat :: MarkerAt(inbound, marks, i)
    ensures HeaderInternal !in inbound ==> marks == Repeat("true", |inbound.Keys|)
    ensures multiset(marks) == multiset(Get(inbound, HeaderInternal)) + multiset(Repeat("true", |inbound.Keys|))
    ensures |inbound.Keys| > 0 ==> StartsTrue(marks)
    ensures |inbound.Keys| == 0 ==> marks == []
  {
    var a: nat :| MarkerSplit(inbound, {}, marks, a);
    MarkedCompleteShape(inbound, marks, a);
    MarkerTally(marks, Get(inbound, HeaderInternal), a, |inbound.Keys|);
    if |inbound.Keys| == 0 {
      assert inbound == map[];
    }
  }

  /** What the final marker values amount to: the inbound ones plus one
      "true" per key, a "true" first whenever there was a key. */
  lemma MarkerTally(marks: seq<string>, inMarks: seq<string>, a: nat, n: nat)
    requires a <= n && marks == Repeat("true", a) + inMarks + Repeat("true", n - a)
    requires a == 0 ==> inMarks == []
    ensures multiset(marks) == multiset(inMarks) + multiset(Repeat("true", n))
    ensures n > 0 ==> StartsTrue(marks)
    ensures n == 0 ==> marks == inMarks
  {
    var front := Repeat("true", a);
    var back := Repeat("true", n - a);
    RepeatSplit("true", a, n - a);
    assert front + back == Repeat("true", n);
    MultisetMiddle(front, inMarks, back);
    MarkerFirst(marks, inMarks, a, n);
  }

  /** Moving a middle part out of a sequence does not change its multiset. */
  lemma MultisetMiddle(front: seq<string>, middle: seq<string>, back: seq<string>)
    ensures multiset(front + middle + back) == multiset(middle) + multiset(front + back)
  {
  }

  lemma MarkerFirst(marks: seq<string>, inMarks: seq<string>, a: nat, n: nat)
    requires a <= n && marks == Repeat("true", a) + inMarks + Repeat("true", n - a)
    requires a == 0 ==> inMarks == []
    ensures n > 0 ==> StartsTrue(marks)
  {
    if n > 0 {
      if a >= 1 {
        RepeatFirst("true", a);
        assert marks[0] == Repeat("true", a)[0];
      } else {
        RepeatFirst("true", n);
        assert marks == Repeat("true", n);
      }
    }
  }

  lemma {:induction false} RepeatFirst(x: string, n: nat)
    requires n > 0
    ensures |Repeat(x, n)| == n && Repeat(x, n)[0] == x
  {
    if n > 1 {
      RepeatFirst(x, n - 1);
    }
  }

  /** The order of the marker values once every key is visited. */
  lemma MarkedCompleteShape(inbound: MultiMap, marks: seq<string>, a: nat)
    requires MarkerSplit(inbound, {}, marks, a)
    ensures HeaderInternal in inbound ==> exists i: nat :: MarkerAt(inbound, marks, i)
    ensures HeaderInternal !in inbound ==> marks == Repeat("true", |inbound.Keys|)
  {
    var n := |inbound.Keys|;
    assert inbound.Keys - {} == inbound.Keys;
    if HeaderInternal in inbound {
      assert MarkerAt(inbound, marks, a - 1);
    } else {
      RepeatSplit("true", a, n - a);
    }
  }

  /** A caller whose own inbound request had at least one header marks its
      downstream call as internal, whatever X-Internal-Call values it received
      itself (a middle hop of a chain, or a client-sent marker): the callee,
      which receives the marker values in order and peeks the first, reads
      "true". */
  lemma CalleeSeesInternalMarker(inbound: MultiMap, out: MultiMap, calleeRequest: Header)
    requires MarkedCopy(inbound, out)
    requires |inbound.Keys| > 0
    requires ValuesOf(calleeRequest, HeaderInternal) == Get(out, HeaderInternal)
    ensures Peek(calleeRequest, HeaderInternal) == "true"
  {
  }

  /** The trace id crosses a hop: a service whose request carries the
      Trace-Id values of a marked copy of an entered request (hop A's context
      after `NewLogger`) chooses hop A's trace id, whatever id it would have
      generated itself. */
  lemma CalleeKeepsTraceId(sA: CtxState, genA: string, out: MultiMap, sB: CtxState, genB: string)
    requires genA != ""
    requires MarkedCopy(Grouped(Entered(sA, genA).request), out)
    requires ValuesOf(sB.request, HeaderTraceID) == Get(out, HeaderTraceID)
    ensures ChosenTraceId(sB, genB) == ChosenTraceId(sA, genA)
  {
    GroupedContents(Entered(sA, genA).request);
  }

  // ----- callee response headers ------------------------------------------

  /** This hop's response header after the copy: the old lines first, then
      every value of every callee key but Trace-Id, each key's values in
      order (keys interleave in Go's map order). */
  ghost predicate CopiedCalleeHeaders(before: Header, after: Header, callee: MultiMap)
  {
    && |before| <= |after| && after[..|before|] == before
    && forall k :: ValuesOf(after[|before|..], k) == if k == HeaderTraceID then [] else Get(callee, k)
  }

  /** One header line per value, all under `key`. */
  function KeyLines(key: string, values: seq<string>): (h: Header)
    ensures |h| == |values|
    ensures forall i :: 0 <= i < |values| ==> h[i] == (key, values[i])
  {
    seq(|values|, i requires 0 <= i < |values| => (key, values[i]))
  }

  lemma {:induction false} KeyLinesValues(key: string, values: seq<string>, k: string)
    ensures ValuesOf(KeyLines(key, values), k) == if k == key then values else []
  {
    if values != [] {
      var h := KeyLines(key, values);
      assert h[1..] == KeyLines(key, values[1..]);
      KeyLinesValues(key, values[1..], k);
      assert values == [values[0]] + values[1..];
    }
  }

  /** The inner loop for one callee key: each value is `Add`ed to this hop's
      response unless the key is Trace-Id. */
  method AddCalleeValues(c: Ctx, key: string, values: seq<string>)
    modifies c
    ensures c.State() == old(c.State()).(response := c.response)
    ensures c.response == old(c.response) + if key == HeaderTraceID then [] else KeyLines(key, values)
  {
    var j := 0;
    while j < |values|
      invariant 0 <= j <= |values|
      invariant c.State() == old(c.State()).(response := c.response)
      invariant c.response == old(c.response) + if key == HeaderTraceID then [] else KeyLines(key, values[..j])
    {
      if key != HeaderTraceID {
        c.response := AddLine(c.response, key, values[j]);
        assert KeyLines(key, values[..j + 1]) == KeyLines(key, values[..j]) + [(key, values[j])];
      }
      j := j + 1;
    }
    assert values[..j] == values;
  }

  /** The lines the copy appended after the keys outside `pending` were
      visited. */
  ghost predicate CopiedSoFar(callee: MultiMap, pending: set<string>, added: Header)
  {
    forall k :: ValuesOf(added, k) == if k in pending || k == HeaderTraceID then [] else Get(callee, k)
  }

  lemma CopyStep(callee: MultiMap, pending: set<string>, key: string, added: Header)
    requires key in pending && pending <= callee.Keys
    requires CopiedSoFar(callee, pending, added)
    ensures CopiedSoFar(callee, pending - {key}, added + CalleeLines(callee, key))
  {
    var lines := CalleeLines(callee, key);
    forall k ensures ValuesOf(added + lines, k) == if k in pending - {key} || k == HeaderTraceID then [] else Get(callee, k) {
      ValuesOfConcat(added, lines, k);
      KeyLinesValues(key, callee[key], k);
    }
  }

  /** The lines one callee key contributes to this hop's response. */
  function CalleeLines(callee: MultiMap, key: string): Header
    requires key in callee
  {
    if key == HeaderTraceID then [] else KeyLines(key, callee[key])
  }

  /** One turn of the outer loop: the values of `key` are appended after the
      lines copied so far, and the bookkeeping moves on by that key. */
  method CopyKey(c: Ctx, callee: MultiMap, pending: set<string>, key: string,
                 ghost base: Header, ghost added: Header) returns (ghost added': Header)
    requires key in pending && pending <= callee.Keys
    requires c.response == base + added
    requires CopiedSoFar(callee, pending, added)
    modifies c
    ensures c.State() == old(c.State()).(response := c.response)
    ensures c.response == base + added'
    ensures CopiedSoFar(callee, pending - {key}, added')
  {
    AddCalleeValues(c, key, callee[key]);
    added' := AppendCopied(callee, pending, key, base, added);
  }

  /** The ghost bookkeeping of one turn of the copy loop. */
  lemma AppendCopied(callee: MultiMap, pending: set<string>, key: string, base: Header, added: Header)
    returns (added': Header)
    requires key in pending && pending <= callee.Keys
    requires CopiedSoFar(callee, pending, added)
    ensures added' == added + CalleeLines(callee, key)
    ensures (base + added) + CalleeLines(callee, key) == base + added'
    ensures CopiedSoFar(callee, pending - {key}, added')
  {
    CopyStep(callee, pending, key, added);
    added' := added + CalleeLines(callee, key);
    AppendAssociates(base, added, CalleeLines(callee, key));
  }

  lemma AppendAssociates(a: Header, b: Header, c: Header)
    ensures (a + b) + c == a + (b + c)
  {
  }

  /** Once every key is copied, the response is the old lines followed by
      exactly the callee's values. */
  lemma CopiedAll(callee: MultiMap, base: Header, added: Header)
    requires CopiedSoFar(callee, {}, added)
    ensures CopiedCalleeHeaders(base, base + added, callee)
  {
    assert (base + added)[..|base|] == base && (base + added)[|base|..] == added;
  }

  /** The two loops that `Add` every callee header value, except those of
      Trace-Id, to this hop's response, keys in Go's unspecified map order. */
  method CopyCalleeHeaders(c: Ctx, callee: MultiMap)
    modifies c
    ensures c.State() == old(c.State()).(response := c.response)
    ensures CopiedCalleeHeaders(old(c.response), c.response, callee)
  {
    ghost var base := c.response;
    ghost var added: Header := [];
    var pending := callee.Keys;
    while pending != {}
      invariant pending <= callee.Keys
      invariant c.State() == old(c.State()).(response := c.response)
      invariant c.response == base + added
      invariant CopiedSoFar(callee, pending, added)
      decreases |pending|
    {
      var key :| key in pending;
      added := CopyKey(c, callee, pending, key, base, added);
      pending := pending - {key};
    }
    CopiedAll(callee, base, added);
  }

  /** The copy appends each callee value to this hop's values of that key and
      never touches this hop's Trace-Id. */
  lemma CopyKeepsTraceId(before: Header, after: Header, callee: MultiMap)
    requires CopiedCalleeHeaders(before, after, callee)
    ensures ValuesOf(after, HeaderTraceID) == ValuesOf(before, HeaderTraceID)
    ensures forall k :: k != HeaderTraceID ==> ValuesOf(after, k) == ValuesOf(before, k) + Get(callee, k)
  {
    assert after == before + after[|before|..];
    forall k ensures ValuesOf(after, k) == ValuesOf(before, k) + ValuesOf(after[|before|..], k) {
      ValuesOfConcat(before, after[|before|..], k);
    }
  }

  /** A two-hop chain A -> B. B answered as a leaf, so its final response
      carries its own encoded block in X-Source (B was called internally);
      A's relay copied B's response headers onto A's response, which had no
      X-Source of its own. Then A's handoff records exactly B's encoded block
      as `source`, and shows X-Source upward only if A was called internally. */
  lemma LeafBlockReachesCaller(
    bResponse: Header, bCurrent: LogBlock,
    aBefore: Header, aAfter: Header, aCurrent: LogBlock, aInternal: bool,
    json: JsonLibrary)
    requires Peek(bResponse, HeaderSource) == ""
    requires MarshalOrEmpty(json.marshalBlock(bCurrent)) != ""
    requires !Has(aBefore, HeaderSource)
    requires CopiedCalleeHeaders(aBefore, aAfter, Grouped(SourceHandoff(bResponse, bCurrent, true, json).0))
    ensures var handed := SourceHandoff(aAfter, aCurrent, aInternal, json);
      && handed.1 == Some(json.unmarshalBlock(MarshalOrEmpty(json.marshalBlock(bCurrent))))
      && (Has(handed.0, HeaderSource) <==> aInternal)
  {
    var bFinal := SourceHandoff(bResponse, bCurrent, true, json).0;
    var encoded := MarshalOrEmpty(json.marshalBlock(bCurrent));
    assert Peek(bFinal, HeaderSource) == encoded;
    GroupedContents(bFinal);
    CopyKeepsTraceId(aBefore, aAfter, Grouped(bFinal));
    assert ValuesOf(aAfter, HeaderSource) == ValuesOf(bFinal, HeaderSource);
    assert Peek(aAfter, HeaderSource) == encoded;
  }

  // ----- the relay call -----------------------------------------------------

  /** `DownStreamHttp`. `sent` is the request handed to the transport, if the
      call got that far; `zero` is Go's zero value of `T`. */
  method DownStreamHttp<T>(c: Ctx, httpMethod: string, url: string, rt: RoundTrip<T>, zero: T, resp: StandardResponse<T>)
    returns (err: Option<Error>, ghost sent: Option<OutboundRequest>)
    modifies c, resp
    // only the response header and the locals of the context are written
    ensures c.State() == old(c.State()).(response := c.response, locals := c.locals)
    // 1. marshalling the payload fails: nothing else happens
    ensures rt.marshal.Failure? ==>
      && err == Some(rt.marshal.error) && sent == None
      && c.response == old(c.response) && c.locals == old(c.locals) && resp.Contents() == old(resp.Contents())
    // 2. building the request fails
    ensures rt.marshal.Success? && rt.buildError.Some? ==>
      && err == rt.buildError && sent == None
      && c.response == old(c.response) && c.locals == old(c.locals) && resp.Contents() == old(resp.Contents())
    // 3. the request sent carries the payload and the marked copy of the inbound headers
    ensures rt.marshal.Success? && rt.buildError.None? ==>
      && sent.Some?
      && sent.value == OutboundRequest(httpMethod, url, rt.marshal.value, sent.value.headers)
      && MarkedCopy(Grouped(old(c.request)), sent.value.headers)
    // 4. the transport fails: this hop's response is untouched
    ensures sent.Some? && rt.send(sent.value).Failure? ==>
      && err == Some(rt.send(sent.value).error)
      && c.response == old(c.response) && c.locals == old(c.locals) && resp.Contents() == old(resp.Contents())
    // 5. the callee answered: headers are copied before decoding, then the slot is decoded
    ensures sent.Some? && rt.send(sent.value).Success? ==>
      var callee := rt.send(sent.value).value;
      var (decoded, decodeErr) := rt.decode(callee.body, old(resp.Contents()));
      && CopiedCalleeHeaders(old(c.response), c.response, callee.headers)
      && resp.fields == decoded.fields
      && (decodeErr.Some? ==> err == decodeErr && resp.data == decoded.data && c.locals == old(c.locals))
      && (decodeErr.None? ==> resp.data == if callee.status != StatusOK then Some(zero) else decoded.data)
      && (decodeErr.None? && rt.caller.None? ==> err == Some(CallerFailed) && c.locals == old(c.locals))
      && (decodeErr.None? && rt.caller.Some? ==>
            err == None && c.locals == old(c.locals)[FilePathKey := LocalString(FormatCallSite(rt.caller.value))])
    // this hop's Trace-Id is never altered
    ensures ValuesOf(c.response, HeaderTraceID) == ValuesOf(old(c.response), HeaderTraceID)
  {
    sent := None;
    if rt.marshal.Failure? {
      return Some(rt.marshal.error), sent;
    }
    var body := rt.marshal.value;
    if rt.buildError.Some? {
      return rt.buildError, sent;
    }
    var headers := OutboundHeaders(Grouped(c.request));
    var request := OutboundRequest(httpMethod, url, body, headers);
    sent := Some(request);

    var reply := rt.send(request);
    if reply.Failure? {
      return Some(reply.error), sent;
    }
    var callee := reply.value;

    ghost var before := c.response;
    CopyCalleeHeaders(c, callee.headers);
    CopyKeepsTraceId(before, c.response, callee.headers);

    var (decoded, decodeErr) := rt.decode(callee.body, resp.Contents());
    resp.data, resp.fields := decoded.data, decoded.fields;
    if decodeErr.Some? {
      return decodeErr, sent;
    }

    if callee.status != StatusOK {
      resp.data := Some(zero);
    }

    if rt.caller.None? {
      return Some(CallerFailed), sent;
    }
    var filePath := FormatCallSite(rt.caller.value);
    c.locals := c.locals[FilePathKey := LocalString(filePath)];
    return None, sent;
  }
}
