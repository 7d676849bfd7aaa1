/**
 * The structured record the logging filters emit for each request and
 * response, and the enumerations it is built from.
 */
module HttpLogModel {

  import opened Wrappers
  import opened Http

  /** How much of an exchange is logged; each level includes the ones before it. */
  datatype HttpLogLevel = NONE | BASIC | HEADERS | FULL {
    /** The declaration order, as `Enum.ordinal`. */
    function Ordinal(): nat {
      match this
      case NONE => 0
      case BASIC => 1
      case HEADERS => 2
      case FULL => 3
    }
  }

  datatype HttpLogType = REQUEST | RESPONSE

  /** Which filter produced a record: the server `WebFilter` or the `WebClient` filter. */
  datatype Source = SERVER | CLIENT

  /** One log entry; absent fields are left out of the formatted output. */
  datatype HttpLog = HttpLog(
    logType: HttpLogType,
    httpMethod: HttpMethod,
    uri: Uri,
    statusCode: Option<int>,
    headers: Option<Headers>,
    body: Option<string>,
    source: Source,
    durationMs: Option<nat>)

  /**
   * `isHttpLogLevel`: the configured level is at least as detailed as
   * `level`, by declaration order.
   */
  function IsHttpLogLevel(configured: HttpLogLevel, level: HttpLogLevel): (r: bool)
    ensures configured == FULL ==> r
    ensures level == NONE ==> r
    ensures configured == level ==> r
    ensures r && level == FULL ==> configured == FULL
    ensures r && configured == NONE ==> level == NONE
  {
    configured.Ordinal() >= level.Ordinal()
  }

  /**
   * What every record the filters emit satisfies: a request has neither
   * status nor duration, a response has a duration, the body is always
   * present and headers are present exactly when the level includes HEADERS.
   */
  predicate WellFormed(r: HttpLog, level: HttpLogLevel, source: Source) {
    && r.source == source
    && r.body.Some?
    && (r.headers.Some? <==> IsHttpLogLevel(level, HEADERS))
    && (r.logType == REQUEST ==> r.statusCode.None? && r.durationMs.None?)
    && (r.logType == RESPONSE ==> r.durationMs.Some?)
  }

  /** Number of records of one type. */
  function CountType(logs: seq<HttpLog>, t: HttpLogType): (n: nat)
    ensures n <= |logs|
  {
    if |logs| == 0 then 0
    else CountType(logs[..|logs| - 1], t) + (if logs[|logs| - 1].logType == t then 1 else 0)
  }

  lemma {:induction false} CountTypeAppend(a: seq<HttpLog>, b: seq<HttpLog>, t: HttpLogType)
    ensures CountType(a + b, t) == CountType(a, t) + CountType(b, t)
    decreases |b|
  {
    if |b| == 0 {
      assert a + b == a;
    } else {
      assert (a + b)[..|a + b| - 1] == a + b[..|b| - 1];
      CountTypeAppend(a, b[..|b| - 1], t);
    }
  }
}
