/**
 * Rendering of an `HttpLog` as a JSON object: fixed fields first, then the
 * optional ones in a fixed order, each present only when the record has it.
 */
module JsonLogFormatter {

  import opened Wrappers
  import opened Text
  import opened Numbers
  import opened Http
  import opened JsonTree
  import opened HttpLogModel

  /** `Source.toString().lowercase()`. */
  function SourceName(s: Source): string {
    match s
    case SERVER => "server"
    case CLIENT => "client"
  }

  /** `HttpLogType.toString().lowercase()`. */
  function TypeName(t: HttpLogType): string {
    match t
    case REQUEST => "request"
    case RESPONSE => "response"
  }

  /** `ObjectNode.put(name, text)` stores a JSON null for a null text. */
  function TextOrNull(o: Option<string>): Json {
    match o
    case None => JNull
    case Some(v) => JString(v)
  }

  /** The duration as logged: the decimal number of milliseconds followed by "ms". */
  function DurationText(durationMs: nat): (r: string)
    ensures |r| >= 3 && r[|r| - 2..] == "ms"
  {
    DecimalString(durationMs) + "ms"
  }

  /** The logged duration text gives back the duration. */
  lemma DurationTextRoundTrip(durationMs: nat)
    requires durationMs <= LONG_MAX
    ensures ParseInteger(DurationText(durationMs)[..|DurationText(durationMs)| - 2], LONG_MIN, LONG_MAX) == Some(durationMs)
  {
    var t := DurationText(durationMs);
    assert t[..|t| - 2] == DecimalString(durationMs);
    ParseDecimalString(durationMs, LONG_MIN, LONG_MAX);
  }

  /** `parseHeaders`: Jackson's tree of `HttpHeaders`, an object from each name to the array of its values. */
  function HeadersTree(h: Headers): (r: Json)
    ensures r.JObject? && Keys(r.members) == Names(h)
    ensures forall i :: 0 <= i < |h| ==> r.members[i].value.JArray? && |r.members[i].value.items| == |h[i].values|
    ensures forall i, j :: 0 <= i < |h| && 0 <= j < |h[i].values| ==> r.members[i].value.items[j] == JString(h[i].values[j])
  {
    JObject(seq(|h|, i requires 0 <= i < |h| =>
      Member(h[i].name, JArray(seq(|h[i].values|, j requires 0 <= j < |h[i].values| => JString(h[i].values[j]))))))
  }

  /** `parseBody`: the parsed tree, or the text wrapped as `{"body": text}` when it is not JSON. */
  function ParseBody(mapper: ObjectMapper, text: string): (r: Json)
    ensures mapper.readTree(text).None? ==> r.JObject? && Keys(r.members) == ["body"] && Get(r.members, "body") == Some(JString(text))
  {
    match mapper.readTree(text)
    case Some(tree) => tree
    case None => JObject([Member("body", JString(text))])
  }

  /** The fields of the formatted object, in the order they are put. */
  datatype Field = Source | Type | Method | UriField | Host | Path | Duration | StatusCode | HeadersField | Body

  /** The key each field is written under. */
  function Key(f: Field): string {
    match f
    case Source => "source"
    case Type => "type"
    case Method => "method"
    case UriField => "uri"
    case Host => "host"
    case Path => "path"
    case Duration => "duration"
    case StatusCode => "statusCode"
    case HeadersField => "headers"
    case Body => "body"
  }

  /** No two fields share a key. */
  lemma KeyInjective(f: Field, g: Field)
    requires f != g
    ensures Key(f) != Key(g)
  {
    assert |Key(f)| != |Key(g)| || Key(f)[0] != Key(g)[0];
  }

  const FIELD_COUNT: nat := 10

  /** The position at which a field is put. */
  function Rank(f: Field): (r: nat)
    ensures r < FIELD_COUNT
  {
    match f
    case Source => 0
    case Type => 1
    case Method => 2
    case UriField => 3
    case Host => 4
    case Path => 5
    case Duration => 6
    case StatusCode => 7
    case HeadersField => 8
    case Body => 9
  }

  /** The field put at position `k`. */
  function FieldAt(k: nat): (f: Field)
    requires k < FIELD_COUNT
    ensures Rank(f) == k
  {
    [Source, Type, Method, UriField, Host, Path, Duration, StatusCode, HeadersField, Body][k]
  }

  lemma FieldAtRank(f: Field)
    ensures FieldAt(Rank(f)) == f
  {
    match f
    case Source =>
    case Type =>
    case Method =>
    case UriField =>
    case Host =>
    case Path =>
    case Duration =>
    case StatusCode =>
    case HeadersField =>
    case Body =>
  }

  predicate HasBody(log: HttpLog) {
    log.body.Some? && HasText(log.body.value)
  }

  /** Whether `format` puts the field for this record: the last four only when the record has them. */
  predicate Present(log: HttpLog, f: Field) {
    match f
    case Duration => log.durationMs.Some?
    case StatusCode => log.statusCode.Some?
    case HeadersField => log.headers.Some?
    case Body => HasBody(log)
    case _ => true
  }

  function Optional(present: bool, f: Field): seq<Field> {
    if present then [f] else []
  }

  /** The fields written for a record, in order: six always, four only when the record has them. */
  function FormattedFields(log: HttpLog): seq<Field> {
    [Source, Type, Method, UriField, Host, Path]
    + Optional(log.durationMs.Some?, Duration)
    + Optional(log.statusCode.Some?, StatusCode)
    + Optional(log.headers.Some?, HeadersField)
    + Optional(HasBody(log), Body)
  }

  /** The fields written before position `k`. */
  function FieldsBefore(log: HttpLog, k: nat): (fs: seq<Field>)
    requires k <= FIELD_COUNT
    ensures forall g :: g in fs ==> Rank(g) < k
  {
    if k == 0 then []
    else FieldsBefore(log, k - 1) + Optional(Present(log, FieldAt(k - 1)), FieldAt(k - 1))
  }

  /** The first six positions hold the fields every record has. */
  lemma FieldsBeforeFixed(log: HttpLog)
    ensures FieldsBefore(log, 6) == [Source, Type, Method, UriField, Host, Path]
  {
    assert FieldsBefore(log, 1) == [Source];
    assert FieldsBefore(log, 2) == [Source, Type];
    assert FieldsBefore(log, 3) == [Source, Type, Method];
    assert FieldsBefore(log, 4) == [Source, Type, Method, UriField];
    assert FieldsBefore(log, 5) == [Source, Type, Method, UriField, Host];
  }

  /** Writing every position in turn writes exactly the record's fields. */
  lemma FieldsBeforeAll(log: HttpLog)
    ensures FieldsBefore(log, FIELD_COUNT) == FormattedFields(log)
  {
    FieldsBeforeFixed(log);
    assert FieldAt(6) == Duration && FieldAt(7) == StatusCode && FieldAt(8) == HeadersField && FieldAt(9) == Body;
    var fixed := [Source, Type, Method, UriField, Host, Path];
    var d := Optional(log.durationMs.Some?, Duration);
    var c := Optional(log.statusCode.Some?, StatusCode);
    var h := Optional(log.headers.Some?, HeadersField);
    var b := Optional(HasBody(log), Body);
    assert FieldsBefore(log, 7) == fixed + d;
    assert FieldsBefore(log, 8) == fixed + d + c;
    assert FieldsBefore(log, 9) == fixed + d + c + h;
    assert FieldsBefore(log, 10) == fixed + d + c + h + b;
  }

  predicate NoDuplicates(fs: seq<Field>) {
    forall i, j :: 0 <= i < j < |fs| ==> fs[i] != fs[j]
  }

  /** Each field is written at most once. */
  lemma {:induction false} FieldsBeforeDistinct(log: HttpLog, k: nat)
    requires k <= FIELD_COUNT
    ensures NoDuplicates(FieldsBefore(log, k))
  {
    if k > 0 {
      FieldsBeforeDistinct(log, k - 1);
    }
  }

  function FieldKeys(fs: seq<Field>): (r: seq<string>)
    ensures |r| == |fs| && forall i :: 0 <= i < |fs| ==> r[i] == Key(fs[i])
  {
    seq(|fs|, i requires 0 <= i < |fs| => Key(fs[i]))
  }

  /** The rendering of each field of a record; an optional field is only rendered when present. */
  function FieldValue(mapper: ObjectMapper, log: HttpLog, f: Field): Json {
    match f
    case Source => JString(SourceName(log.source))
    case Type => JString(TypeName(log.logType))
    case Method => JString(log.httpMethod.name)
    case UriField => JString(UriString(log.uri))
    case Host => TextOrNull(log.uri.host)
    case Path => TextOrNull(log.uri.path)
    case Duration => JString(DurationText(log.durationMs.GetOr(0)))
    case StatusCode => JNumber(DecimalString(log.statusCode.GetOr(0)))
    case HeadersField => HeadersTree(log.headers.GetOr([]))
    case Body => ParseBody(mapper, log.body.GetOr(""))
  }

  /** The members written for the fields `fs`, in order. */
  function RenderFields(mapper: ObjectMapper, log: HttpLog, fs: seq<Field>): (ms: seq<Member>)
    ensures |ms| == |fs|
  {
    seq(|fs|, i requires 0 <= i < |fs| => Member(Key(fs[i]), FieldValue(mapper, log, fs[i])))
  }

  /** `put` of a present field after those before it: its member is appended. */
  method PutField(mapper: ObjectMapper, log: HttpLog, ms: seq<Member>, f: Field) returns (r: seq<Member>)
    requires Present(log, f) && ms == RenderFields(mapper, log, FieldsBefore(log, Rank(f)))
    ensures r == RenderFields(mapper, log, FieldsBefore(log, Rank(f) + 1))
  {
    var fs := FieldsBefore(log, Rank(f));
    assert Key(f) !in Keys(ms) by {
      forall i | 0 <= i < |ms|
        ensures Keys(ms)[i] != Key(f)
      {
        KeyInjective(fs[i], f);
      }
    }
    PutFresh(ms, Key(f), FieldValue(mapper, log, f));
    r := Put(ms, Key(f), FieldValue(mapper, log, f));
    FieldAtRank(f);
    assert FieldsBefore(log, Rank(f) + 1) == fs + [f];
    assert (fs + [f])[..|fs|] == fs;
  }

  /** An absent field is skipped: nothing is written at its position. */
  lemma SkipField(log: HttpLog, f: Field)
    requires !Present(log, f)
    ensures FieldsBefore(log, Rank(f) + 1) == FieldsBefore(log, Rank(f))
  {
    FieldAtRank(f);
  }

  /** Looking a field up among distinct rendered fields finds its value exactly when it was written. */
  lemma RenderedGet(mapper: ObjectMapper, log: HttpLog, fs: seq<Field>, f: Field)
    requires NoDuplicates(fs)
    ensures Keys(RenderFields(mapper, log, fs)) == FieldKeys(fs)
    ensures Get(RenderFields(mapper, log, fs), Key(f)) == if f in fs then Some(FieldValue(mapper, log, f)) else None
  {
    var ms := RenderFields(mapper, log, fs);
    assert DistinctKeys(ms) by {
      forall i, j | 0 <= i < j < |ms|
        ensures ms[i].key != ms[j].key
      {
        KeyInjective(fs[i], fs[j]);
      }
    }
    if f in fs {
      var i :| 0 <= i < |fs| && fs[i] == f;
      GetDistinct(ms, i);
    } else {
      forall i | 0 <= i < |ms|
        ensures Keys(ms)[i] != Key(f)
      {
        KeyInjective(fs[i], f);
      }
      assert Key(f) !in Keys(ms);
    }
  }

  /** The six fields every record has, put in order. */
  method PutFixedFields(mapper: ObjectMapper, log: HttpLog) returns (ms: seq<Member>)
    ensures ms == RenderFields(mapper, log, FieldsBefore(log, 6))
  {
    ms := [];
    ms := PutField(mapper, log, ms, Source);
    ms := PutField(mapper, log, ms, Type);
    ms := PutField(mapper, log, ms, Method);
    ms := PutField(mapper, log, ms, UriField);
    ms := PutField(mapper, log, ms, Host);
    ms := PutField(mapper, log, ms, Path);
  }

  /** One optional field: put when the record has it, skipped otherwise. */
  method PutIfPresent(mapper: ObjectMapper, log: HttpLog, ms: seq<Member>, f: Field) returns (r: seq<Member>)
    requires ms == RenderFields(mapper, log, FieldsBefore(log, Rank(f)))
    ensures r == RenderFields(mapper, log, FieldsBefore(log, Rank(f) + 1))
  {
    if Present(log, f) {
      r := PutField(mapper, log, ms, f);
    } else {
      SkipField(log, f);
      r := ms;
    }
  }

  /** The four fields put only when the record has them, in order. */
  method PutOptionalFields(mapper: ObjectMapper, log: HttpLog, ms: seq<Member>) returns (r: seq<Member>)
    requires ms == RenderFields(mapper, log, FieldsBefore(log, 6))
    ensures r == RenderFields(mapper, log, FieldsBefore(log, FIELD_COUNT))
  {
    assert Rank(Duration) == 6 && Rank(StatusCode) == 7 && Rank(HeadersField) == 8 && Rank(Body) == 9;
    r := PutIfPresent(mapper, log, ms, Duration);
    r := PutIfPresent(mapper, log, r, StatusCode);
    r := PutIfPresent(mapper, log, r, HeadersField);
    r := PutIfPresent(mapper, log, r, Body);
  }

  /**
   * `format`: source and type lowercased, method, URI, host and path always;
   * the duration with its "ms" suffix, the status code and the headers only
   * when present; the body, parsed or wrapped, only when it has text. Every
   * field is found under its key exactly when it was written.
   */
  method Format(mapper: ObjectMapper, log: HttpLog) returns (logNode: Json)
    ensures logNode.JObject? && Keys(logNode.members) == FieldKeys(FormattedFields(log))
    ensures forall f :: Get(logNode.members, Key(f)) == if f in FormattedFields(log) then Some(FieldValue(mapper, log, f)) else None
  {
    var ms := PutFixedFields(mapper, log);
    ms := PutOptionalFields(mapper, log, ms);
    FieldsBeforeAll(log);
    FieldsBeforeDistinct(log, FIELD_COUNT);
    forall f {
      RenderedGet(mapper, log, FieldsBefore(log, FIELD_COUNT), f);
    }
    logNode := JObject(ms);
  }
}
