/**
 * What the server filter and the client filter share: their configuration,
 * the bypass decision, the masking of URI and body, the construction of the
 * REQUEST and RESPONSE records, and the builder that assembles a
 * configuration.
 */
module FilterSupport {

  import opened Wrappers
  import opened Text
  import opened Http
  import opened JsonTree
  import opened HttpLogModel
  import Obfuscator

  /**
   * The library behaviour the filters rely on: Jackson's parser and writer,
   * `AntPathMatcher.match(pattern, path)` and UTF-8 decoding of a byte array.
   */
  datatype Platform = Platform(
    mapper: ObjectMapper,
    pathMatches: (string, string) -> bool,
    decodeUtf8: seq<byte> -> string)

  /** A `Pair<HttpMethod?, String>` exclusion: an optional method and a path pattern. */
  datatype ExclusionRule = ExclusionRule(httpMethod: Option<HttpMethod>, pattern: string)

  /** The constructor arguments of either filter. */
  datatype FilterConfig = FilterConfig(
    httpLogLevel: HttpLogLevel,
    sensitiveHeaders: seq<string>,
    shouldNotLogPatterns: seq<ExclusionRule>,
    sensitiveJsonBodyFields: seq<string>,
    sensitiveParameters: seq<string>,
    platform: Platform)

  /** One rule excludes a request when its method is absent or equal and its pattern matches the path. */
  predicate RuleMatches(rule: ExclusionRule, httpMethod: HttpMethod, path: string, platform: Platform) {
    (rule.httpMethod.None? || rule.httpMethod.value == httpMethod) && platform.pathMatches(rule.pattern, path)
  }

  /** `shouldNotLog`: `any` over the exclusion rules. */
  function ShouldNotLog(rules: seq<ExclusionRule>, httpMethod: HttpMethod, path: string, platform: Platform): (r: bool)
    ensures r <==> exists i :: 0 <= i < |rules| && RuleMatches(rules[i], httpMethod, path, platform)
  {
    if |rules| == 0 then false
    else if RuleMatches(rules[0], httpMethod, path, platform) then true
    else
      var r := ShouldNotLog(rules[1..], httpMethod, path, platform);
      assert r ==> exists i :: 0 <= i < |rules| && RuleMatches(rules[i], httpMethod, path, platform) by {
        if r {
          var i :| 0 <= i < |rules[1..]| && RuleMatches(rules[1..][i], httpMethod, path, platform);
          assert rules[i + 1] == rules[1..][i];
        }
      }
      r
  }

  /** The filter leaves the exchange alone: logging is off, or some rule excludes the request. */
  predicate Bypass(cfg: FilterConfig, httpMethod: HttpMethod, path: string) {
    cfg.httpLogLevel == NONE || ShouldNotLog(cfg.shouldNotLogPatterns, httpMethod, path, cfg.platform)
  }

  /** The path the exclusion rules are matched against. */
  function RequestPath(uri: Uri): string {
    uri.path.GetOr("")
  }

  /** `maskUri`: query parameters are masked only when some are configured as sensitive. */
  function MaskUri(cfg: FilterConfig, uri: Uri): (r: Uri)
    ensures cfg.sensitiveParameters == [] ==> r == uri
    ensures r.scheme == uri.scheme && r.authority == uri.authority && r.host == uri.host
    ensures r.path == uri.path && r.fragment == uri.fragment
    ensures r.query.Some? <==> uri.query.Some?
  {
    if |cfg.sensitiveParameters| > 0 then Obfuscator.MaskParameters(uri, cfg.sensitiveParameters) else uri
  }

  /** The body text a record carries: JSON fields are masked only when some are configured. */
  function MaskBody(cfg: FilterConfig, body: string): (r: string)
    ensures cfg.sensitiveJsonBodyFields == [] ==> r == body
    ensures !HasText(body) ==> r == body
    ensures cfg.platform.mapper.readTree(body).None? ==> r == body
  {
    if |cfg.sensitiveJsonBodyFields| > 0 then Obfuscator.MaskedBody(cfg.platform.mapper, body, cfg.sensitiveJsonBodyFields)
    else body
  }

  /** The headers a record carries: masked, and only from level HEADERS on. */
  function RecordHeaders(cfg: FilterConfig, headers: Headers): (r: Option<Headers>)
    ensures r.Some? <==> IsHttpLogLevel(cfg.httpLogLevel, HEADERS)
    ensures r.Some? ==> Names(r.value) == Names(headers)
  {
    if IsHttpLogLevel(cfg.httpLogLevel, HEADERS) then Some(Obfuscator.MaskHeaders(headers, cfg.sensitiveHeaders)) else None
  }

  /** The record `logRequest` emits. */
  function RequestRecord(cfg: FilterConfig, httpMethod: HttpMethod, uri: Uri, headers: Headers, body: string, source: Source): (r: HttpLog)
    ensures WellFormed(r, cfg.httpLogLevel, source)
    ensures r.logType == REQUEST && r.httpMethod == httpMethod && r.uri == uri
    ensures r.body == Some(MaskBody(cfg, body))
    ensures r.headers == RecordHeaders(cfg, headers)
  {
    HttpLog(REQUEST, httpMethod, uri, None, RecordHeaders(cfg, headers), Some(MaskBody(cfg, body)), source, None)
  }

  /** The record `logResponse` emits. */
  function ResponseRecord(cfg: FilterConfig, httpMethod: HttpMethod, uri: Uri, statusCode: Option<int>, headers: Headers,
                          body: string, durationMs: nat, source: Source): (r: HttpLog)
    ensures WellFormed(r, cfg.httpLogLevel, source)
    ensures r.logType == RESPONSE && r.httpMethod == httpMethod && r.uri == uri
    ensures r.statusCode == statusCode && r.durationMs == Some(durationMs)
    ensures r.body == Some(MaskBody(cfg, body))
    ensures r.headers == RecordHeaders(cfg, headers)
  {
    HttpLog(RESPONSE, httpMethod, uri, statusCode, RecordHeaders(cfg, headers), Some(MaskBody(cfg, body)), source, Some(durationMs))
  }

  /** `logRequest`: masks the body and (from HEADERS on) the headers, then builds the record. */
  method LogRequest(cfg: FilterConfig, httpMethod: HttpMethod, uri: Uri, headers: HttpHeaders, body: string, source: Source)
    returns (r: HttpLog)
    ensures r == RequestRecord(cfg, httpMethod, uri, headers, body, source)
  {
    var maskedBody := body;
    if |cfg.sensitiveJsonBodyFields| > 0 {
      maskedBody := Obfuscator.MaskJsonBody(cfg.platform.mapper, body, cfg.sensitiveJsonBodyFields);
    }
    var obfuscatedHeaders: Option<Headers> := None;
    if IsHttpLogLevel(cfg.httpLogLevel, HEADERS) {
      var masked := Obfuscator.ObfuscateHeaders(headers, cfg.sensitiveHeaders);
      obfuscatedHeaders := Some(masked);
    }
    r := HttpLog(REQUEST, httpMethod, uri, None, obfuscatedHeaders, Some(maskedBody), source, None);
  }

  /** `logResponse`: as `logRequest`, with the status and the measured duration. */
  method LogResponse(cfg: FilterConfig, httpMethod: HttpMethod, uri: Uri, statusCode: Option<int>, headers: HttpHeaders,
                     body: string, durationMs: nat, source: Source)
    returns (r: HttpLog)
    ensures r == ResponseRecord(cfg, httpMethod, uri, statusCode, headers, body, durationMs, source)
  {
    var maskedBody := body;
    if |cfg.sensitiveJsonBodyFields| > 0 {
      maskedBody := Obfuscator.MaskJsonBody(cfg.platform.mapper, body, cfg.sensitiveJsonBodyFields);
    }
    var obfuscatedHeaders: Option<Headers> := None;
    if IsHttpLogLevel(cfg.httpLogLevel, HEADERS) {
      var masked := Obfuscator.ObfuscateHeaders(headers, cfg.sensitiveHeaders);
      obfuscatedHeaders := Some(masked);
    }
    r := HttpLog(RESPONSE, httpMethod, uri, statusCode, obfuscatedHeaders, Some(maskedBody), source, Some(durationMs));
  }

  /** An empty body stays empty in every record, whatever is configured. */
  lemma EmptyBodyStaysEmpty(cfg: FilterConfig)
    ensures MaskBody(cfg, "") == ""
  {
    assert !HasText("");
  }

  /**
   * The builder both filters offer: the defaults of a fresh builder, each
   * `sensitive…`/`shouldNotLog` call appending in call order, and `build`
   * handing the builder's settings to a new filter.
   */
  class Builder {
    const platform: Platform
    var httpLogLevel: HttpLogLevel
    var sensitiveHeaders: seq<string>
    var shouldNotLogPatterns: seq<ExclusionRule>
    var sensitiveJsonBodyFields: seq<string>
    var sensitiveParameters: seq<string>

    constructor (platform: Platform)
      ensures this.platform == platform
      ensures httpLogLevel == FULL
      ensures sensitiveHeaders == ["Authorization", "Cookie", "Set-Cookie"]
      ensures shouldNotLogPatterns == []
      ensures sensitiveJsonBodyFields == ["access_token", "refresh_token"]
      ensures sensitiveParameters == ["access_token"]
    {
      this.platform := platform;
      httpLogLevel := FULL;
      sensitiveHeaders := ["Authorization", "Cookie", "Set-Cookie"];
      shouldNotLogPatterns := [];
      sensitiveJsonBodyFields := ["access_token", "refresh_token"];
      sensitiveParameters := ["access_token"];
    }

    method WithHttpLogLevel(level: HttpLogLevel)
      modifies this
      ensures httpLogLevel == level
      ensures sensitiveHeaders == old(sensitiveHeaders) && shouldNotLogPatterns == old(shouldNotLogPatterns)
      ensures sensitiveJsonBodyFields == old(sensitiveJsonBodyFields) && sensitiveParameters == old(sensitiveParameters)
    {
      httpLogLevel := level;
    }

    method SensitiveHeader(headers: seq<string>)
      modifies this
      ensures sensitiveHeaders == old(sensitiveHeaders) + headers
      ensures httpLogLevel == old(httpLogLevel) && shouldNotLogPatterns == old(shouldNotLogPatterns)
      ensures sensitiveJsonBodyFields == old(sensitiveJsonBodyFields) && sensitiveParameters == old(sensitiveParameters)
    {
      sensitiveHeaders := sensitiveHeaders + headers;
    }

    /** `shouldNotLog(method, patterns)`: one rule per pattern, in order, all for `method`. */
    method ShouldNotLogMethod(httpMethod: Option<HttpMethod>, patterns: seq<string>)
      modifies this
      ensures |shouldNotLogPatterns| == |old(shouldNotLogPatterns)| + |patterns|
      ensures shouldNotLogPatterns[..|old(shouldNotLogPatterns)|] == old(shouldNotLogPatterns)
      ensures forall i :: 0 <= i < |patterns| ==>
        shouldNotLogPatterns[|old(shouldNotLogPatterns)| + i] == ExclusionRule(httpMethod, patterns[i])
      ensures httpLogLevel == old(httpLogLevel) && sensitiveHeaders == old(sensitiveHeaders)
      ensures sensitiveJsonBodyFields == old(sensitiveJsonBodyFields) && sensitiveParameters == old(sensitiveParameters)
    {
      for k := 0 to |patterns|
        invariant |shouldNotLogPatterns| == |old(shouldNotLogPatterns)| + k
        invariant shouldNotLogPatterns[..|old(shouldNotLogPatterns)|] == old(shouldNotLogPatterns)
        invariant forall i :: 0 <= i < k ==>
          shouldNotLogPatterns[|old(shouldNotLogPatterns)| + i] == ExclusionRule(httpMethod, patterns[i])
        invariant httpLogLevel == old(httpLogLevel) && sensitiveHeaders == old(sensitiveHeaders)
        invariant sensitiveJsonBodyFields == old(sensitiveJsonBodyFields) && sensitiveParameters == old(sensitiveParameters)
      {
        shouldNotLogPatterns := shouldNotLogPatterns + [ExclusionRule(httpMethod, patterns[k])];
      }
    }

    /** `shouldNotLog(patterns)`: rules that apply whatever the httpMethod. */
    method ShouldNotLog(patterns: seq<string>)
      modifies this
      ensures shouldNotLogPatterns ==
        old(shouldNotLogPatterns) + seq(|patterns|, i requires 0 <= i < |patterns| => ExclusionRule(None, patterns[i]))
      ensures httpLogLevel == old(httpLogLevel) && sensitiveHeaders == old(sensitiveHeaders)
      ensures sensitiveJsonBodyFields == old(sensitiveJsonBodyFields) && sensitiveParameters == old(sensitiveParameters)
    {
      shouldNotLogPatterns := shouldNotLogPatterns
        + seq(|patterns|, i requires 0 <= i < |patterns| => ExclusionRule(None, patterns[i]));
    }

    method SensitiveJsonBodyField(paths: seq<string>)
      modifies this
      ensures sensitiveJsonBodyFields == old(sensitiveJsonBodyFields) + paths
      ensures httpLogLevel == old(httpLogLevel) && sensitiveHeaders == old(sensitiveHeaders)
      ensures shouldNotLogPatterns == old(shouldNotLogPatterns) && sensitiveParameters == old(sensitiveParameters)
    {
      sensitiveJsonBodyFields := sensitiveJsonBodyFields + paths;
    }

    method SensitiveParameter(params: seq<string>)
      modifies this
      ensures sensitiveParameters == old(sensitiveParameters) + params
      ensures httpLogLevel == old(httpLogLevel) && sensitiveHeaders == old(sensitiveHeaders)
      ensures shouldNotLogPatterns == old(shouldNotLogPatterns) && sensitiveJsonBodyFields == old(sensitiveJsonBodyFields)
    {
      sensitiveParameters := sensitiveParameters + params;
    }

    method Build() returns (cfg: FilterConfig)
      ensures cfg == FilterConfig(httpLogLevel, sensitiveHeaders, shouldNotLogPatterns,
                                  sensitiveJsonBodyFields, sensitiveParameters, platform)
    {
      cfg := FilterConfig(httpLogLevel, sensitiveHeaders, shouldNotLogPatterns,
                          sensitiveJsonBodyFields, sensitiveParameters, platform);
    }
  }

  /**
   * A configuration built by a fresh builder logs everything at FULL, masks
   * the default names, and excludes a request only through rules added
   * later.
   */
  method DefaultConfig(platform: Platform) returns (cfg: FilterConfig)
    ensures cfg.httpLogLevel == FULL && cfg.shouldNotLogPatterns == []
    ensures forall m, p :: !Bypass(cfg, m, p)
    ensures AnyEqualsIgnoreCase(cfg.sensitiveHeaders, "authorization")
    ensures cfg.sensitiveParameters == ["access_token"]
  {
    var b := new Builder(platform);
    cfg := b.Build();
    assert EqualsIgnoreCase(cfg.sensitiveHeaders[0], "authorization");
  }
}
