/**
 * The `WebClient` exchange filter: an outgoing request is sent (through a
 * buffering decorator at FULL), and once the response has arrived the
 * request and then the response are logged.
 */
module ClientLogging {

  import opened Wrappers
  import opened Text
  import opened Numbers
  import opened Http
  import opened HttpLogModel
  import opened FilterSupport
  import DataBufferCopyUtils
  import opened RequestBuffering

  /** What the request's body inserter writes: nothing at all, or a stream of chunks. */
  datatype RequestBody = NoBody | Chunks(chunks: seq<Chunk>)

  datatype ClientRequest = ClientRequest(httpMethod: HttpMethod, url: Uri, headers: HttpHeaders, body: RequestBody)

  /** The response the exchange function produced, with its body still unread. */
  datatype ClientResponse = ClientResponse(statusCode: int, headers: HttpHeaders, body: seq<Chunk>)

  function RequestBytes(body: RequestBody): seq<byte> {
    match body
    case NoBody => []
    case Chunks(chunks) => Flatten(chunks)
  }

  /**
   * `HttpHeaders.getContentLength`: -1 without the header, otherwise the
   * value as `Long.parseLong` reads it, which fails on malformed text.
   */
  function ContentLength(h: Headers): (r: Result<int, string>)
    ensures !ContainsKey(h, CONTENT_LENGTH) ==> r == Ok(-1)
  {
    match GetFirst(h, CONTENT_LENGTH)
    case None => Ok(-1)
    case Some(v) =>
      match ToLongOrNull(v)
      case None => Err("NumberFormatException")
      case Some(n) => Ok(n)
  }

  /** At FULL the response body is read when it has a positive length or is chunked. */
  predicate ReadsResponseBody(cfg: FilterConfig, response: ClientResponse) {
    && cfg.httpLogLevel == FULL
    && ContentLength(response.headers).Ok?
    && (ContentLength(response.headers).value > 0 || ContainsKey(response.headers, TRANSFER_ENCODING))
  }

  /** The request body text logged: what the buffering decorator captured, or the empty string. */
  function RequestText(cfg: FilterConfig, request: ClientRequest): string {
    if cfg.httpLogLevel == FULL && request.body.Chunks? then cfg.platform.decodeUtf8(Flatten(request.body.chunks)) else ""
  }

  /** The response body text logged: the bytes read, or the empty string. */
  function ResponseText(cfg: FilterConfig, response: ClientResponse): string {
    if ReadsResponseBody(cfg, response) && |response.body| > 0 then cfg.platform.decodeUtf8(Flatten(response.body)) else ""
  }

  /**
   * The response handed back: rebuilt around the bytes read when the body
   * was read, the original one otherwise.
   */
  function ReturnedResponse(cfg: FilterConfig, request: ClientRequest, response: ClientResponse): ClientResponse {
    if !Bypass(cfg, request.httpMethod, RequestPath(request.url)) && ReadsResponseBody(cfg, response)
    then response.(body := [Flatten(response.body)])
    else response
  }

  /** Sending a request body over the connection, with or without the buffering decorator in between. */
  method Send(body: RequestBody, buffering: bool) returns (sent: seq<Chunk>, captured: Option<seq<byte>>)
    ensures Flatten(sent) == RequestBytes(body)
    ensures captured == if buffering && body.Chunks? then Some(Flatten(body.chunks)) else None
  {
    var connection := new ClientHttpRequest();
    captured := None;
    if buffering {
      var bufferingRequest := new BufferingClientHttpRequest(connection);
      match body {
        case NoBody =>
        case Chunks(chunks) =>
          bufferingRequest.WriteWith(chunks);
          assert Flatten(connection.written) == Flatten(chunks);
      }
      captured := bufferingRequest.requestBody;
    } else {
      match body {
        case NoBody =>
        case Chunks(chunks) =>
          connection.WriteWith(chunks);
          assert connection.written == chunks;
      }
    }
    sent := connection.written;
  }

  /**
   * `filter`: a bypassed request goes out unchanged and nothing is logged.
   * Otherwise the request is logged once the response has arrived, then the
   * response (with the duration measured up to its arrival) is logged and
   * returned, rebuilt around the bytes read when its body was read. A
   * malformed Content-Length on the response makes the exchange fail at
   * FULL, after the request was logged.
   */
  method Filter(cfg: FilterConfig, request: ClientRequest, response: ClientResponse, elapsedMs: nat)
    returns (outcome: Result<ClientResponse, string>, logs: seq<HttpLog>, sent: seq<Chunk>)
    ensures Flatten(sent) == RequestBytes(request.body)
    ensures Bypass(cfg, request.httpMethod, RequestPath(request.url)) ==> outcome == Ok(response) && logs == []
    ensures !Bypass(cfg, request.httpMethod, RequestPath(request.url)) ==>
      && 1 <= |logs| <= 2
      && logs[0] == RequestRecord(cfg, request.httpMethod, MaskUri(cfg, request.url), request.headers, RequestText(cfg, request), CLIENT)
      && (outcome.Err? <==> cfg.httpLogLevel == FULL && ContentLength(response.headers).Err?)
      && (|logs| == 2 <==> outcome.Ok?)
      && (outcome.Ok? ==> logs[1] == ResponseRecord(cfg, request.httpMethod, MaskUri(cfg, request.url), Some(response.statusCode),
                                                     response.headers, ResponseText(cfg, response), elapsedMs, CLIENT))
    ensures outcome.Ok? ==> outcome.value == ReturnedResponse(cfg, request, response)
  {
    if cfg.httpLogLevel == NONE || ShouldNotLog(cfg.shouldNotLogPatterns, request.httpMethod, RequestPath(request.url), cfg.platform) {
      var unbuffered;
      sent, unbuffered := Send(request.body, false);
      return Ok(response), [], sent;
    }
    var uri := MaskUri(cfg, request.url);
    var requestBody;
    sent, requestBody := Send(request.body, cfg.httpLogLevel == FULL);
    var requestText := if requestBody.Some? then cfg.platform.decodeUtf8(requestBody.value) else "";
    var requestLog := LogRequest(cfg, request.httpMethod, uri, request.headers, requestText, CLIENT);
    logs := [requestLog];

    var responseBody: Option<seq<byte>> := None;
    var mutatedResponse := response;
    if cfg.httpLogLevel == FULL {
      match ContentLength(response.headers) {
        case Err(e) =>
          return Err(e), logs, sent;
        case Ok(contentLength) =>
          if contentLength > 0 || ContainsKey(response.headers, TRANSFER_ENCODING) {
            var body := DataBufferCopyUtils.Joined(response.body);
            responseBody := body;
            mutatedResponse := response.(body := [body.GetOr([])]);
          }
      }
    }
    var responseText := if responseBody.Some? then cfg.platform.decodeUtf8(responseBody.value) else "";
    var responseLog := LogResponse(cfg, request.httpMethod, uri, Some(response.statusCode), response.headers,
                                   responseText, elapsedMs, CLIENT);
    logs := logs + [responseLog];
    outcome := Ok(mutatedResponse);
  }

  /**
   * The response handed back has the status, headers and bytes the server
   * sent, whether or not its body was read; a body that was read comes back
   * as a single buffer.
   */
  lemma ReturnedResponseSameBytes(cfg: FilterConfig, request: ClientRequest, response: ClientResponse)
    ensures ReturnedResponse(cfg, request, response).statusCode == response.statusCode
    ensures ReturnedResponse(cfg, request, response).headers == response.headers
    ensures Flatten(ReturnedResponse(cfg, request, response).body) == Flatten(response.body)
    ensures |ReturnedResponse(cfg, request, response).body| == 1 || ReturnedResponse(cfg, request, response) == response
  {
    FlattenSingle(Flatten(response.body));
  }

  /** Below FULL nothing is captured: both records carry the empty body. */
  lemma BelowFullClientBodiesEmpty(cfg: FilterConfig, request: ClientRequest, response: ClientResponse)
    requires cfg.httpLogLevel != FULL
    ensures RequestText(cfg, request) == "" && ResponseText(cfg, response) == ""
    ensures MaskBody(cfg, RequestText(cfg, request)) == "" && MaskBody(cfg, ResponseText(cfg, response)) == ""
  {
    EmptyBodyStaysEmpty(cfg);
  }

  /** A bodiless request (the empty inserter) is logged with the empty body even at FULL. */
  lemma NoBodyLoggedEmpty(cfg: FilterConfig, request: ClientRequest)
    requires request.body.NoBody?
    ensures MaskBody(cfg, RequestText(cfg, request)) == ""
  {
    EmptyBodyStaysEmpty(cfg);
  }
}
