/**
 * The server-side `WebFilter`: one exchange is decorated so that the request
 * is logged when the decorator is built (for bodiless requests) and whenever
 * the handler reads the body, and the response is logged once, just before
 * it is committed.
 */
module ServerLogging {

  import opened Wrappers
  import opened Text
  import opened Numbers
  import opened Http
  import opened HttpLogModel
  import opened FilterSupport
  import DataBufferCopyUtils

  /** The incoming request: its body is the chunk stream the handler may read. */
  datatype ServerRequest = ServerRequest(httpMethod: HttpMethod, uri: Uri, headers: HttpHeaders, body: seq<Chunk>)

  /** The response as it stands when it is committed. */
  datatype ServerResponse = ServerResponse(statusCode: Option<int>, headers: HttpHeaders)

  /**
   * What the rest of the chain does with the decorated exchange, in order:
   * read the request body, write a response body (the stopwatch reading at
   * commit time attached), or complete the response without a body.
   */
  datatype HandlerStep = ReadBody | WriteBody(chunks: seq<Chunk>, elapsedMs: nat) | Complete(elapsedMs: nat)

  /** Content-Length as the request decorator reads it: missing or unparseable counts as 0. */
  function DeclaredContentLength(h: Headers): int {
    match GetFirst(h, CONTENT_LENGTH)
    case None => 0
    case Some(v) => ToLongOrNull(v).GetOr(0)
  }

  predicate LogsAtDecoration(request: ServerRequest) {
    DeclaredContentLength(request.headers) == 0
  }

  /** The URI every record of the exchange carries. */
  function LoggedUri(cfg: FilterConfig, request: ServerRequest): Uri {
    MaskUri(cfg, request.uri)
  }

  /** The REQUEST record logged when the decorator is built: the body is still empty. */
  function DecorationRecord(cfg: FilterConfig, request: ServerRequest): HttpLog {
    RequestRecord(cfg, request.httpMethod, LoggedUri(cfg, request), request.headers, "", SERVER)
  }

  /** The REQUEST record a body read logs: the captured text at FULL, the empty body below. */
  function ReadRecord(cfg: FilterConfig, request: ServerRequest): HttpLog {
    var body := if cfg.httpLogLevel == FULL then cfg.platform.decodeUtf8(Flatten(request.body)) else "";
    RequestRecord(cfg, request.httpMethod, LoggedUri(cfg, request), request.headers, body, SERVER)
  }

  /** The RESPONSE record logged before commit, with the body captured so far. */
  function CommitRecord(cfg: FilterConfig, request: ServerRequest, response: ServerResponse, body: string, elapsedMs: nat): HttpLog {
    ResponseRecord(cfg, request.httpMethod, LoggedUri(cfg, request), response.statusCode, response.headers, body, elapsedMs, SERVER)
  }

  predicate Commits(step: HandlerStep) {
    step.WriteBody? || step.Complete?
  }

  /** Whether some step of the script has committed the response. */
  predicate Committed(script: seq<HandlerStep>) {
    exists i :: 0 <= i < |script| && Commits(script[i])
  }

  /** What one step logs, given whether the response was already committed. */
  function StepLogs(cfg: FilterConfig, request: ServerRequest, response: ServerResponse, committed: bool, step: HandlerStep): seq<HttpLog> {
    match step
    case ReadBody => [ReadRecord(cfg, request)]
    case WriteBody(chunks, elapsedMs) =>
      if committed then []
      else
        var body := if cfg.httpLogLevel == FULL then cfg.platform.decodeUtf8(Flatten(chunks)) else "";
        [CommitRecord(cfg, request, response, body, elapsedMs)]
    case Complete(elapsedMs) =>
      if committed then [] else [CommitRecord(cfg, request, response, "", elapsedMs)]
  }

  /**
   * What a decorated exchange logs, in order: the record logged when the
   * decorator is built (if any), then what each step of the script logs.
   */
  function ProcessedLogs(cfg: FilterConfig, request: ServerRequest, response: ServerResponse, script: seq<HandlerStep>): seq<HttpLog> {
    if |script| == 0 then
      if LogsAtDecoration(request) then [DecorationRecord(cfg, request)] else []
    else
      var prefix := script[..|script| - 1];
      ProcessedLogs(cfg, request, response, prefix) + StepLogs(cfg, request, response, Committed(prefix), script[|script| - 1])
  }

  /** Everything the filter logs for one exchange, in order. */
  function ExpectedLogs(cfg: FilterConfig, request: ServerRequest, response: ServerResponse, script: seq<HandlerStep>): seq<HttpLog> {
    if Bypass(cfg, request.httpMethod, RequestPath(request.uri)) then []
    else ProcessedLogs(cfg, request, response, script)
  }

  /** All bytes the handler writes as response bodies, in order. */
  function WrittenBytes(script: seq<HandlerStep>): seq<byte> {
    if |script| == 0 then []
    else
      var last := script[|script| - 1];
      WrittenBytes(script[..|script| - 1]) + (if last.WriteBody? then Flatten(last.chunks) else [])
  }

  function ReadCount(script: seq<HandlerStep>): nat {
    if |script| == 0 then 0
    else ReadCount(script[..|script| - 1]) + (if script[|script| - 1].ReadBody? then 1 else 0)
  }

  /**
   * The decorated exchange `processRequest` builds: the request decorator's
   * captured body, the response decorator's captured body, whether the
   * response is committed, the records logged so far and the bytes that
   * reached the connection.
   */
  class LoggingExchange {
    const cfg: FilterConfig
    const request: ServerRequest
    const response: ServerResponse
    const uri: Uri
    var capturedRequestBody: string
    var capturedResponseBody: string
    var committed: bool
    var logs: seq<HttpLog>
    var transport: seq<Chunk>

    /**
     * Records carry the masked URI, below FULL nothing is ever captured, and
     * no response body is captured before the response is committed.
     */
    predicate Valid()
      reads this
    {
      && uri == LoggedUri(cfg, request)
      && (cfg.httpLogLevel != FULL ==> capturedRequestBody == "" && capturedResponseBody == "")
      && (!committed ==> capturedResponseBody == "")
    }

    /** Building the decorators: a bodiless request is logged right away. */
    constructor (cfg: FilterConfig, request: ServerRequest, response: ServerResponse)
      ensures this.cfg == cfg && this.request == request && this.response == response
      ensures uri == LoggedUri(cfg, request)
      ensures capturedRequestBody == "" && capturedResponseBody == ""
      ensures !committed && transport == []
      ensures logs == if LogsAtDecoration(request) then [DecorationRecord(cfg, request)] else []
      ensures Valid()
    {
      this.cfg := cfg;
      this.request := request;
      this.response := response;
      uri := MaskUri(cfg, request.uri);
      capturedRequestBody := "";
      capturedResponseBody := "";
      committed := false;
      transport := [];
      logs := [];
      new;
      var contentLength := 0;
      match GetFirst(request.headers, CONTENT_LENGTH) {
        case None =>
        case Some(v) =>
          match ToLongOrNull(v) {
            case None =>
            case Some(n) => contentLength := n;
          }
      }
      if contentLength == 0 {
        var r := LogRequest(cfg, request.httpMethod, uri, request.headers, capturedRequestBody, SERVER);
        logs := [r];
      }
    }

    /**
     * `getBody`: at FULL the body passes through capture and the request is
     * logged with the captured text once it is read; below FULL the request
     * is logged with the empty body and the original stream is returned.
     */
    method GetBody() returns (body: seq<Chunk>)
      requires Valid()
      modifies this
      ensures Valid()
      ensures Flatten(body) == Flatten(request.body)
      ensures logs == old(logs) + [ReadRecord(cfg, request)]
      ensures committed == old(committed) && transport == old(transport)
      ensures capturedResponseBody == old(capturedResponseBody)
    {
      if cfg.httpLogLevel == FULL {
        var emitted, copied := DataBufferCopyUtils.WrapAndBuffer(request.body);
        DataBufferCopyUtils.WrapPreservesBytes(request.body, copied);
        capturedRequestBody := cfg.platform.decodeUtf8(copied);
        var r := LogRequest(cfg, request.httpMethod, uri, request.headers, capturedRequestBody, SERVER);
        logs := logs + [r];
        body := emitted;
      } else {
        var r := LogRequest(cfg, request.httpMethod, uri, request.headers, capturedRequestBody, SERVER);
        logs := logs + [r];
        body := request.body;
      }
    }

    /** The `beforeCommit` action: it runs at the first commit only and logs the response. */
    method BeforeCommit(elapsedMs: nat)
      requires uri == LoggedUri(cfg, request)
      modifies this
      ensures committed
      ensures logs == old(logs) + if old(committed) then []
        else [CommitRecord(cfg, request, response, old(capturedResponseBody), elapsedMs)]
      ensures capturedRequestBody == old(capturedRequestBody) && capturedResponseBody == old(capturedResponseBody)
      ensures transport == old(transport)
    {
      if !committed {
        committed := true;
        var r := LogResponse(cfg, request.httpMethod, uri, response.statusCode, response.headers,
                             capturedResponseBody, elapsedMs, SERVER);
        logs := logs + [r];
      }
    }

    /**
     * `writeWith`: at FULL the body passes through capture first; writing
     * commits the response, then the bytes go to the connection unchanged.
     */
    method WriteWith(chunks: seq<Chunk>, elapsedMs: nat)
      requires Valid()
      modifies this
      ensures Valid()
      ensures committed
      ensures logs == old(logs) + StepLogs(cfg, request, response, old(committed), WriteBody(chunks, elapsedMs))
      ensures Flatten(transport) == Flatten(old(transport)) + Flatten(chunks)
      ensures capturedRequestBody == old(capturedRequestBody)
    {
      var out := chunks;
      if cfg.httpLogLevel == FULL {
        var emitted, copied := DataBufferCopyUtils.WrapAndBuffer(chunks);
        DataBufferCopyUtils.WrapPreservesBytes(chunks, copied);
        capturedResponseBody := cfg.platform.decodeUtf8(copied);
        out := emitted;
      }
      BeforeCommit(elapsedMs);
      FlattenAppend(transport, out);
      transport := transport + out;
    }

    /** `setComplete`: commits a response that has no body. */
    method SetComplete(elapsedMs: nat)
      requires Valid()
      modifies this
      ensures Valid()
      ensures committed
      ensures logs == old(logs) + StepLogs(cfg, request, response, old(committed), Complete(elapsedMs))
      ensures transport == old(transport)
      ensures capturedRequestBody == old(capturedRequestBody)
    {
      BeforeCommit(elapsedMs);
    }

    /** One step of the handler against the decorated exchange. */
    method Step(step: HandlerStep)
      requires Valid()
      modifies this
      ensures Valid()
      ensures committed == (old(committed) || Commits(step))
      ensures logs == old(logs) + StepLogs(cfg, request, response, old(committed), step)
      ensures Flatten(transport) == Flatten(old(transport)) + (if step.WriteBody? then Flatten(step.chunks) else [])
    {
      match step {
        case ReadBody =>
          var _ := GetBody();
          FlattenAppend(transport, []);
          assert transport + [] == transport;
        case WriteBody(chunks, elapsedMs) =>
          WriteWith(chunks, elapsedMs);
        case Complete(elapsedMs) =>
          SetComplete(elapsedMs);
          assert Flatten(old(transport)) + [] == Flatten(old(transport));
      }
    }
  }

  /** A bypassed exchange: the handler's bytes go to the connection as they are. */
  method PassThrough(script: seq<HandlerStep>) returns (transport: seq<Chunk>)
    ensures Flatten(transport) == WrittenBytes(script)
  {
    transport := [];
    for i := 0 to |script|
      invariant Flatten(transport) == WrittenBytes(script[..i])
    {
      assert script[..i + 1][..i] == script[..i];
      if script[i].WriteBody? {
        FlattenAppend(transport, script[i].chunks);
        transport := transport + script[i].chunks;
      }
    }
    assert script[..|script|] == script;
  }

  lemma ScriptSnoc(cfg: FilterConfig, request: ServerRequest, response: ServerResponse, script: seq<HandlerStep>, step: HandlerStep)
    ensures ProcessedLogs(cfg, request, response, script + [step]) ==
      ProcessedLogs(cfg, request, response, script) + StepLogs(cfg, request, response, Committed(script), step)
    ensures WrittenBytes(script + [step]) == WrittenBytes(script) + (if step.WriteBody? then Flatten(step.chunks) else [])
  {
    assert (script + [step])[..|script|] == script;
  }

  lemma CommittedSnoc(script: seq<HandlerStep>, step: HandlerStep)
    ensures Committed(script + [step]) == (Committed(script) || Commits(step))
  {
    if Committed(script) {
      var j :| 0 <= j < |script| && Commits(script[j]);
      assert (script + [step])[j] == script[j];
    }
    if Commits(step) {
      assert (script + [step])[|script|] == step;
    }
  }

  /** ScriptSnoc and CommittedSnoc at the prefixes of one script, as the handler loop meets them. */
  lemma ScriptStep(cfg: FilterConfig, request: ServerRequest, response: ServerResponse, script: seq<HandlerStep>, i: nat)
    requires i < |script|
    ensures ProcessedLogs(cfg, request, response, script[..i + 1]) ==
      ProcessedLogs(cfg, request, response, script[..i]) + StepLogs(cfg, request, response, Committed(script[..i]), script[i])
    ensures WrittenBytes(script[..i + 1]) == WrittenBytes(script[..i]) + (if script[i].WriteBody? then Flatten(script[i].chunks) else [])
    ensures Committed(script[..i + 1]) == (Committed(script[..i]) || Commits(script[i]))
  {
    assert script[..i + 1] == script[..i] + [script[i]];
    CommittedSnoc(script[..i], script[i]);
    ScriptSnoc(cfg, request, response, script[..i], script[i]);
  }

  /**
   * `processRequest`: the handler runs the script against the decorated
   * exchange.
   */
  method ProcessRequest(cfg: FilterConfig, request: ServerRequest, response: ServerResponse, script: seq<HandlerStep>)
    returns (logs: seq<HttpLog>, transport: seq<Chunk>)
    ensures logs == ProcessedLogs(cfg, request, response, script)
    ensures Flatten(transport) == WrittenBytes(script)
  {
    var exchange := new LoggingExchange(cfg, request, response);
    for i := 0 to |script|
      invariant exchange.Valid()
      invariant exchange.cfg == cfg && exchange.request == request && exchange.response == response
      invariant exchange.committed == Committed(script[..i])
      invariant exchange.logs == ProcessedLogs(cfg, request, response, script[..i])
      invariant Flatten(exchange.transport) == WrittenBytes(script[..i])
    {
      ScriptStep(cfg, request, response, script, i);
      exchange.Step(script[i]);
    }
    assert script[..|script|] == script;
    logs := exchange.logs;
    transport := exchange.transport;
  }

  /**
   * `filter`: a bypassed exchange reaches the handler undecorated and
   * nothing is logged; otherwise the handler runs the script against the
   * decorated exchange. Either way the handler's bytes reach the connection
   * unchanged.
   */
  method Filter(cfg: FilterConfig, request: ServerRequest, response: ServerResponse, script: seq<HandlerStep>)
    returns (logs: seq<HttpLog>, transport: seq<Chunk>)
    ensures logs == ExpectedLogs(cfg, request, response, script)
    ensures Flatten(transport) == WrittenBytes(script)
  {
    if cfg.httpLogLevel == NONE || ShouldNotLog(cfg.shouldNotLogPatterns, request.httpMethod, RequestPath(request.uri), cfg.platform) {
      transport := PassThrough(script);
      logs := [];
    } else {
      logs, transport := ProcessRequest(cfg, request, response, script);
    }
  }

  // ------------------------------------------------ properties of the logs

  /** The first step of a script that commits the response, if any. */
  function FirstCommit(script: seq<HandlerStep>): (r: Option<HandlerStep>)
    ensures r.Some? ==> Commits(r.value)
  {
    if |script| == 0 then None
    else
      var prefix := FirstCommit(script[..|script| - 1]);
      if prefix.Some? then prefix
      else if Commits(script[|script| - 1]) then Some(script[|script| - 1])
      else None
  }

  /** The response body captured by the time a committing step commits. */
  function CommitBody(cfg: FilterConfig, step: HandlerStep): string {
    if step.WriteBody? && cfg.httpLogLevel == FULL then cfg.platform.decodeUtf8(Flatten(step.chunks)) else ""
  }

  lemma {:induction false} FirstCommitCommitted(script: seq<HandlerStep>)
    ensures FirstCommit(script).Some? <==> Committed(script)
  {
    if |script| > 0 {
      var prefix := script[..|script| - 1];
      FirstCommitCommitted(prefix);
      assert script == prefix + [script[|script| - 1]];
      CommittedSnoc(prefix, script[|script| - 1]);
    }
  }

  /** What one step logs, record by record. */
  lemma StepLogsShape(cfg: FilterConfig, request: ServerRequest, response: ServerResponse, committed: bool, step: HandlerStep)
    ensures var b := StepLogs(cfg, request, response, committed, step);
      && (step.ReadBody? ==> b == [ReadRecord(cfg, request)])
      && (Commits(step) && !committed ==> b == [CommitRecord(cfg, request, response, CommitBody(cfg, step), step.elapsedMs)])
      && (Commits(step) && committed ==> b == [])
  {
  }

  /** Every record the server filter logs is well formed for its level, with source SERVER. */
  lemma {:induction false} ProcessedLogsWellFormed(cfg: FilterConfig, request: ServerRequest, response: ServerResponse, script: seq<HandlerStep>)
    ensures forall k :: 0 <= k < |ProcessedLogs(cfg, request, response, script)| ==> WellFormed(ProcessedLogs(cfg, request, response, script)[k], cfg.httpLogLevel, SERVER)
  {
    if |script| > 0 {
      var prefix := script[..|script| - 1];
      ProcessedLogsWellFormed(cfg, request, response, prefix);
      var a := ProcessedLogs(cfg, request, response, prefix);
      var b := StepLogs(cfg, request, response, Committed(prefix), script[|script| - 1]);
      var logs := ProcessedLogs(cfg, request, response, script);
      assert logs == a + b;
      StepLogsShape(cfg, request, response, Committed(prefix), script[|script| - 1]);
      forall k | 0 <= k < |logs| ensures WellFormed(logs[k], cfg.httpLogLevel, SERVER) {
        if k < |a| {
          assert logs[k] == a[k];
          assert WellFormed(a[k], cfg.httpLogLevel, SERVER);
        } else {
          assert logs[k] == b[k - |a|];
          assert WellFormed(ReadRecord(cfg, request), cfg.httpLogLevel, SERVER);
          assert WellFormed(b[k - |a|], cfg.httpLogLevel, SERVER);
        }
      }
    }
  }

  lemma StepLogsCount(cfg: FilterConfig, request: ServerRequest, response: ServerResponse, committed: bool, step: HandlerStep)
    ensures CountType(StepLogs(cfg, request, response, committed, step), REQUEST) == if step.ReadBody? then 1 else 0
    ensures CountType(StepLogs(cfg, request, response, committed, step), RESPONSE) == if !committed && Commits(step) then 1 else 0
  {
    var tail := StepLogs(cfg, request, response, committed, step);
    if |tail| == 1 {
      assert tail[..0] == [];
    }
  }

  /**
   * One REQUEST record for the decoration of a bodiless request and one per
   * body read; at FULL a bodiless request that is read is therefore logged
   * twice.
   */
  lemma {:induction false} RequestCount(cfg: FilterConfig, request: ServerRequest, response: ServerResponse, script: seq<HandlerStep>)
    ensures CountType(ProcessedLogs(cfg, request, response, script), REQUEST) ==
      (if LogsAtDecoration(request) then 1 else 0) + ReadCount(script)
  {
    if |script| == 0 {
      if LogsAtDecoration(request) {
        assert [DecorationRecord(cfg, request)][..0] == [];
      }
    } else {
      var prefix := script[..|script| - 1];
      RequestCount(cfg, request, response, prefix);
      var step := script[|script| - 1];
      CountTypeAppend(ProcessedLogs(cfg, request, response, prefix), StepLogs(cfg, request, response, Committed(prefix), step), REQUEST);
      StepLogsCount(cfg, request, response, Committed(prefix), step);
    }
  }

  /** At most one RESPONSE record: exactly one once some step has committed the response. */
  lemma {:induction false} ResponseCount(cfg: FilterConfig, request: ServerRequest, response: ServerResponse, script: seq<HandlerStep>)
    ensures CountType(ProcessedLogs(cfg, request, response, script), RESPONSE) == if Committed(script) then 1 else 0
  {
    if |script| == 0 {
      if LogsAtDecoration(request) {
        assert [DecorationRecord(cfg, request)][..0] == [];
      }
    } else {
      var prefix := script[..|script| - 1];
      ResponseCount(cfg, request, response, prefix);
      var step := script[|script| - 1];
      CountTypeAppend(ProcessedLogs(cfg, request, response, prefix), StepLogs(cfg, request, response, Committed(prefix), step), RESPONSE);
      StepLogsCount(cfg, request, response, Committed(prefix), step);
      assert script == prefix + [step];
      CommittedSnoc(prefix, step);
    }
  }

  /**
   * The RESPONSE record is the one logged at the first commit: its body is
   * what that step captured (the first write's text at FULL, nothing
   * otherwise) and its duration the stopwatch reading then. Later writes
   * never reach the log.
   */
  lemma {:induction false} ResponseRecordIsFirstCommit(cfg: FilterConfig, request: ServerRequest, response: ServerResponse, script: seq<HandlerStep>)
    ensures forall k :: 0 <= k < |ProcessedLogs(cfg, request, response, script)| && ProcessedLogs(cfg, request, response, script)[k].logType == RESPONSE ==> FirstCommit(script).Some? && ProcessedLogs(cfg, request, response, script)[k] == CommitRecord(cfg, request, response, CommitBody(cfg, FirstCommit(script).value), FirstCommit(script).value.elapsedMs)
  {
    if |script| > 0 {
      var prefix := script[..|script| - 1];
      var step := script[|script| - 1];
      ResponseRecordIsFirstCommit(cfg, request, response, prefix);
      FirstCommitCommitted(prefix);
      var expected := if FirstCommit(script).Some? then
        CommitRecord(cfg, request, response, CommitBody(cfg, FirstCommit(script).value), FirstCommit(script).value.elapsedMs)
        else DecorationRecord(cfg, request);
      var a := ProcessedLogs(cfg, request, response, prefix);
      var b := StepLogs(cfg, request, response, Committed(prefix), step);
      var logs := ProcessedLogs(cfg, request, response, script);
      assert logs == a + b;
      StepLogsShape(cfg, request, response, Committed(prefix), script[|script| - 1]);
      forall k | 0 <= k < |logs| && logs[k].logType == RESPONSE ensures FirstCommit(script).Some? && logs[k] == expected {
        if k < |a| {
          assert logs[k] == a[k];
          assert FirstCommit(script) == FirstCommit(prefix);
        } else {
          assert logs[k] == b[k - |a|];
        }
      }
    }
  }

  /** Below FULL no body is captured, so every record carries the empty body. */
  lemma {:induction false} BelowFullBodiesEmpty(cfg: FilterConfig, request: ServerRequest, response: ServerResponse, script: seq<HandlerStep>)
    requires cfg.httpLogLevel != FULL
    ensures forall k :: 0 <= k < |ProcessedLogs(cfg, request, response, script)| ==> ProcessedLogs(cfg, request, response, script)[k].body == Some("")
  {
    EmptyBodyStaysEmpty(cfg);
    if |script| > 0 {
      var prefix := script[..|script| - 1];
      BelowFullBodiesEmpty(cfg, request, response, prefix);
      var a := ProcessedLogs(cfg, request, response, prefix);
      var b := StepLogs(cfg, request, response, Committed(prefix), script[|script| - 1]);
      var logs := ProcessedLogs(cfg, request, response, script);
      assert logs == a + b;
      StepLogsShape(cfg, request, response, Committed(prefix), script[|script| - 1]);
      forall k | 0 <= k < |logs| ensures logs[k].body == Some("") {
        if k < |a| { assert logs[k] == a[k]; } else { assert logs[k] == b[k - |a|]; }
      }
    }
  }

  /**
   * The double log: at FULL a request without Content-Length whose body is
   * read is logged at decoration with the empty body, then again with the
   * captured text.
   */
  lemma FullLevelLogsBodilessRequestTwice(cfg: FilterConfig, request: ServerRequest, response: ServerResponse)
    requires cfg.httpLogLevel == FULL
    requires !Bypass(cfg, request.httpMethod, RequestPath(request.uri))
    requires !ContainsKey(request.headers, CONTENT_LENGTH)
    ensures ExpectedLogs(cfg, request, response, [ReadBody]) == [DecorationRecord(cfg, request), ReadRecord(cfg, request)]
    ensures ExpectedLogs(cfg, request, response, [ReadBody])[0].body == Some("")
  {
    assert GetFirst(request.headers, CONTENT_LENGTH).None?;
    assert LogsAtDecoration(request);
    assert [ReadBody][..0] == [];
    assert !Committed([]);
    assert ProcessedLogs(cfg, request, response, []) == [DecorationRecord(cfg, request)];
    assert ProcessedLogs(cfg, request, response, [ReadBody]) == ProcessedLogs(cfg, request, response, []) + StepLogs(cfg, request, response, false, ReadBody);
    EmptyBodyStaysEmpty(cfg);
  }
}
