/**
 * The base exception handler: the exception classes it tells apart, the
 * first-match dispatch over them in declaration order, one handler per kind,
 * each building an RFC 9457 problem detail that carries an `error` code, and
 * the localization of the detail text with its fall-back to the message key.
 */
module ExceptionHandling {

  import opened Wrappers
  import opened Http
  import opened Violations
  import opened EnumValidation

  // ---------------------------------------------------------------------
  // The exception hierarchy

  /** The JDK, Jakarta, Spring and application exception classes the handlers name. */
  datatype ExceptionClass =
    | Exception
    | RuntimeException
    | IOException
    | InterruptedIOException
    | SocketTimeoutException
    | UnsupportedOperationException
    | JakartaValidationException
    | ConstraintViolationException
    | ResponseStatusException
    | MethodNotAllowedException
    | NotAcceptableStatusException
    | UnsupportedMediaTypeStatusException
    | ServerWebInputException
    | WebExchangeBindException
    | ServerErrorException
    | ResourceNotFoundException
    | ResourceConflictException
    | ValidationException

  /** Distance from `java.lang.Exception`, the root of the hierarchy seen here. */
  function Depth(c: ExceptionClass): nat {
    match c
    case Exception => 0
    case RuntimeException | IOException => 1
    case InterruptedIOException | UnsupportedOperationException | JakartaValidationException
      | ResponseStatusException | ResourceNotFoundException | ResourceConflictException | ValidationException => 2
    case SocketTimeoutException | ConstraintViolationException | MethodNotAllowedException
      | NotAcceptableStatusException | UnsupportedMediaTypeStatusException | ServerWebInputException
      | ServerErrorException => 3
    case WebExchangeBindException => 4
  }

  /** The direct superclass (single inheritance); the intermediate Spring base classes are folded away. */
  function Parent(c: ExceptionClass): (r: Option<ExceptionClass>)
    ensures r.None? <==> c == Exception
    ensures r.Some? ==> Depth(r.value) + 1 == Depth(c)
  {
    match c
    case Exception => None
    case RuntimeException | IOException => Some(Exception)
    case InterruptedIOException => Some(IOException)
    case SocketTimeoutException => Some(InterruptedIOException)
    case UnsupportedOperationException | JakartaValidationException | ResponseStatusException
      | ResourceNotFoundException | ResourceConflictException | ValidationException => Some(RuntimeException)
    case ConstraintViolationException => Some(JakartaValidationException)
    case MethodNotAllowedException | NotAcceptableStatusException | UnsupportedMediaTypeStatusException
      | ServerWebInputException | ServerErrorException => Some(ResponseStatusException)
    case WebExchangeBindException => Some(ServerWebInputException)
  }

  /** Kotlin's `is`: `c` is `d` or one of its subclasses. */
  predicate IsA(c: ExceptionClass, d: ExceptionClass)
    decreases Depth(c)
  {
    c == d || (Parent(c).Some? && IsA(Parent(c).value, d))
  }

  /** A proper superclass sits strictly closer to the root than its subclass. */
  lemma {:induction false} SuperclassIsShallower(c: ExceptionClass, d: ExceptionClass)
    ensures IsA(c, d) ==> c == d || Depth(d) < Depth(c)
    decreases Depth(c)
  {
    if c != d && Parent(c).Some? {
      SuperclassIsShallower(Parent(c).value, d);
    }
  }

  /** With single inheritance the superclasses of a class form a chain: any two are related. */
  lemma {:induction false} SuperclassesFormChain(c: ExceptionClass, a: ExceptionClass, b: ExceptionClass)
    requires IsA(c, a) && IsA(c, b)
    ensures IsA(a, b) || IsA(b, a)
    decreases Depth(c)
  {
    if c != a && c != b {
      SuperclassesFormChain(Parent(c).value, a, b);
    }
  }

  // ---------------------------------------------------------------------
  // Thrown exceptions

  /** An HTTP status code as `HttpStatusCode.valueOf` accepts it: three digits. */
  type StatusCode = c: int | 100 <= c <= 999 witness 500

  const BAD_REQUEST: StatusCode := 400
  const NOT_FOUND: StatusCode := 404
  const METHOD_NOT_ALLOWED: StatusCode := 405
  const NOT_ACCEPTABLE: StatusCode := 406
  const CONFLICT: StatusCode := 409
  const UNSUPPORTED_MEDIA_TYPE: StatusCode := 415
  const INTERNAL_SERVER_ERROR: StatusCode := 500
  const NOT_IMPLEMENTED: StatusCode := 501
  const GATEWAY_TIMEOUT: StatusCode := 504

  /**
   * A thrown exception with the state the handlers read. The Spring
   * `ResponseStatusException` family carries its reason and the response
   * headers Spring computes for it (`Allow`, `Accept`, ...); the plain one
   * also carries its own status.
   */
  datatype Thrown =
    | MethodNotAllowed(supportedMethods: seq<HttpMethod>, reason: Option<string>, headers: HttpHeaders)
    | NotAcceptable(supportedMediaTypes: seq<string>, reason: Option<string>, headers: HttpHeaders)
    | UnsupportedMediaType(supportedMediaTypes: seq<string>, reason: Option<string>, headers: HttpHeaders)
    | BindFailure(fieldErrors: seq<FieldError>, globalErrors: seq<ObjectError>, reason: Option<string>, headers: HttpHeaders)
    | InputFailure(reason: Option<string>, headers: HttpHeaders)
    | ServerFailure(reason: Option<string>, headers: HttpHeaders)
    | StatusFailure(statusCode: StatusCode, reason: Option<string>, headers: HttpHeaders)
    | ConstraintFailure(constraintViolations: seq<ConstraintViolation>)
    | SocketTimeout(message: Option<string>)
    | UnsupportedOperation(message: Option<string>)
    | ResourceNotFound(resourceName: string, searchCriteria: string, searchValue: Value)
    | ResourceConflict(resourceName: string, searchCriteria: string, searchValue: Value)
    | ValidationFailure(validationMessage: string, args: seq<Value>)
    | OtherRuntime(message: Option<string>)
    | OtherIO(message: Option<string>)
    | OtherChecked(message: Option<string>)

  /** The runtime class of a thrown exception. */
  function ClassOf(t: Thrown): ExceptionClass {
    match t
    case MethodNotAllowed(_, _, _) => MethodNotAllowedException
    case NotAcceptable(_, _, _) => NotAcceptableStatusException
    case UnsupportedMediaType(_, _, _) => UnsupportedMediaTypeStatusException
    case BindFailure(_, _, _, _) => WebExchangeBindException
    case InputFailure(_, _) => ServerWebInputException
    case ServerFailure(_, _) => ServerErrorException
    case StatusFailure(_, _, _) => ResponseStatusException
    case ConstraintFailure(_) => ConstraintViolationException
    case SocketTimeout(_) => SocketTimeoutException
    case UnsupportedOperation(_) => UnsupportedOperationException
    case ResourceNotFound(_, _, _) => ResourceNotFoundException
    case ResourceConflict(_, _, _) => ResourceConflictException
    case ValidationFailure(_, _) => ValidationException
    case OtherRuntime(_) => RuntimeException
    case OtherIO(_) => IOException
    case OtherChecked(_) => Exception
  }

  /** Whether the exception is a Spring `ResponseStatusException` (and so has a status, a reason and headers). */
  predicate IsResponseStatus(t: Thrown) {
    t.MethodNotAllowed? || t.NotAcceptable? || t.UnsupportedMediaType? || t.BindFailure?
    || t.InputFailure? || t.ServerFailure? || t.StatusFailure?
  }

  /** The kinds that carry a status are exactly the subclasses of `ResponseStatusException`. */
  lemma ResponseStatusKinds(t: Thrown)
    ensures IsResponseStatus(t) <==> IsA(ClassOf(t), ResponseStatusException)
  {
  }

  /** `ex.statusCode`: fixed by each Spring subclass, chosen freely for the plain one. */
  function StatusCodeOf(t: Thrown): (r: StatusCode)
    requires IsResponseStatus(t)
    ensures t.StatusFailure? ==> r == t.statusCode
  {
    match t
    case MethodNotAllowed(_, _, _) => METHOD_NOT_ALLOWED
    case NotAcceptable(_, _, _) => NOT_ACCEPTABLE
    case UnsupportedMediaType(_, _, _) => UNSUPPORTED_MEDIA_TYPE
    case BindFailure(_, _, _, _) => BAD_REQUEST
    case InputFailure(_, _) => BAD_REQUEST
    case ServerFailure(_, _) => INTERNAL_SERVER_ERROR
    case StatusFailure(code, _, _) => code
  }

  // ---------------------------------------------------------------------
  // First-match dispatch

  /** The `is` branches of `handleException`, in the order they are written. */
  const HANDLED: seq<ExceptionClass> := [
    MethodNotAllowedException,
    NotAcceptableStatusException,
    UnsupportedMediaTypeStatusException,
    WebExchangeBindException,
    ConstraintViolationException,
    ServerWebInputException,
    ServerErrorException,
    ResponseStatusException,
    SocketTimeoutException,
    UnsupportedOperationException
  ]

  /** The branch a `when` over `branches` takes for class `c`: the first one `c` is an instance of. */
  function FirstMatch(c: ExceptionClass, branches: seq<ExceptionClass>): (r: Option<nat>)
    ensures r.Some? ==> r.value < |branches| && IsA(c, branches[r.value])
    ensures r.Some? ==> forall j :: 0 <= j < r.value ==> !IsA(c, branches[j])
    ensures r.None? ==> forall j :: 0 <= j < |branches| ==> !IsA(c, branches[j])
  {
    if branches == [] then None
    else if IsA(c, branches[0]) then Some(0)
    else
      match FirstMatch(c, branches[1..])
      case None => None
      case Some(k) => Some(k + 1)
  }

  /** No branch is shadowed: a later branch is never a subclass of an earlier one. */
  predicate NoShadowing(branches: seq<ExceptionClass>) {
    forall i, j :: 0 <= i < j < |branches| ==> !IsA(branches[j], branches[i])
  }

  lemma HandledHasNoShadowing()
    ensures NoShadowing(HANDLED)
  {
    forall i, j | 0 <= i < j < |HANDLED|
      ensures !IsA(HANDLED[j], HANDLED[i])
    {
      SuperclassIsShallower(HANDLED[j], HANDLED[i]);
    }
  }

  /** Listing a supertype first would shadow its subclass: `ServerWebInputException` before `WebExchangeBindException`. */
  lemma SwappedOrderShadows()
    ensures !NoShadowing([ServerWebInputException, WebExchangeBindException])
  {
    var branches := [ServerWebInputException, WebExchangeBindException];
    assert IsA(branches[1], branches[0]);
  }

  /**
   * When no branch is shadowed, first-match dispatch picks the most specific
   * matching branch: every other branch the class matches is a superclass of it.
   */
  lemma {:induction false} FirstMatchIsMostSpecific(c: ExceptionClass, branches: seq<ExceptionClass>, j: nat)
    requires NoShadowing(branches)
    requires FirstMatch(c, branches).Some?
    requires j < |branches| && IsA(c, branches[j])
    ensures IsA(branches[FirstMatch(c, branches).value], branches[j])
  {
    var i := FirstMatch(c, branches).value;
    SuperclassesFormChain(c, branches[i], branches[j]);
  }

  /** Without shadowing, every branch is taken by its own class. */
  lemma {:induction false} EveryBranchReachable(branches: seq<ExceptionClass>, i: nat)
    requires NoShadowing(branches)
    requires i < |branches|
    ensures FirstMatch(branches[i], branches) == Some(i)
  {
    assert IsA(branches[i], branches[i]);
  }

  /** The handler each kind of exception is meant to reach, written out kind by kind. */
  function IntendedBranch(t: Thrown): (r: Option<nat>)
    ensures r.Some? ==> r.value < |HANDLED|
  {
    match t
    case MethodNotAllowed(_, _, _) => Some(0)
    case NotAcceptable(_, _, _) => Some(1)
    case UnsupportedMediaType(_, _, _) => Some(2)
    case BindFailure(_, _, _, _) => Some(3)
    case ConstraintFailure(_) => Some(4)
    case InputFailure(_, _) => Some(5)
    case ServerFailure(_, _) => Some(6)
    case StatusFailure(_, _, _) => Some(7)
    case SocketTimeout(_) => Some(8)
    case UnsupportedOperation(_) => Some(9)
    case _ => None
  }

  /** The `when` chain sends every exception to its intended handler, and the rest to the default. */
  lemma DispatchReachesIntendedHandler(t: Thrown)
    ensures FirstMatch(ClassOf(t), HANDLED) == IntendedBranch(t)
  {
    HandledHasNoShadowing();
    match IntendedBranch(t)
    case Some(k) =>
      assert ClassOf(t) == HANDLED[k];
      EveryBranchReachable(HANDLED, k);
    case None =>
      NoHandledSuperclass(ClassOf(t));
  }

  /** Classes no deeper than the shallowest handled ones, and not handled themselves, match no branch. */
  lemma NoHandledSuperclass(c: ExceptionClass)
    requires Depth(c) <= 2 && c !in HANDLED
    ensures forall k :: 0 <= k < |HANDLED| ==> !IsA(c, HANDLED[k])
  {
    forall k | 0 <= k < |HANDLED|
      ensures !IsA(c, HANDLED[k])
    {
      SuperclassIsShallower(c, HANDLED[k]);
    }
  }

  // ---------------------------------------------------------------------
  // Localization

  type Locale = string

  /** An argument handed to the message lookup. */
  datatype MessageArg = ValueArg(value: Value) | ExceptionArg(thrown: Thrown)

  /** A `MessageSource` as a lookup of key, arguments and locale; `None` stands for a `null` result. */
  type MessageSource = (string, seq<MessageArg>, Locale) -> Option<string>

  /** What the handler knows of its surroundings: the injected message source and the JVM default locale. */
  datatype Localization = Localization(messageSource: Option<MessageSource>, defaultLocale: Locale)

  /** The exchange, reduced to the locale its locale context resolved (if any). */
  datatype Exchange = Exchange(locale: Option<Locale>)

  /** `getLocale`: the exchange's locale, else the default one. */
  function GetLocale(loc: Localization, exchange: Exchange): (r: Locale)
    ensures exchange.locale.Some? ==> r == exchange.locale.value
    ensures exchange.locale.None? ==> r == loc.defaultLocale
  {
    exchange.locale.GetOr(loc.defaultLocale)
  }

  /** `getLocalizedMessage`: the message source's text for `key`, or `key` itself when there is none. */
  function GetLocalizedMessage(loc: Localization, key: string, exchange: Exchange, args: seq<MessageArg>): (r: string)
    ensures loc.messageSource.None? ==> r == key
    ensures r == key || (loc.messageSource.Some? && loc.messageSource.value(key, args, GetLocale(loc, exchange)) == Some(r))
    ensures loc.messageSource.Some? && loc.messageSource.value(key, args, GetLocale(loc, exchange)).None? ==> r == key
  {
    match loc.messageSource
    case None => key
    case Some(source) => source(key, args, GetLocale(loc, exchange)).GetOr(key)
  }

  // ---------------------------------------------------------------------
  // Problem details

  datatype PropertyValue = Text(text: string) | ViolationList(violations: seq<Violation>)

  datatype Property = Property(name: string, value: PropertyValue)

  /** Spring's `ProblemDetail`: status, detail and the extra properties in insertion order. */
  datatype ProblemDetail = ProblemDetail(status: StatusCode, detail: string, properties: seq<Property>)

  /** `ResponseEntity(body, headers, status)`. */
  datatype ResponseEntity = ResponseEntity(body: ProblemDetail, headers: HttpHeaders, status: StatusCode)

  function PropertyNames(ps: seq<Property>): (r: seq<string>)
    ensures |r| == |ps|
    ensures forall i :: 0 <= i < |ps| ==> r[i] == ps[i].name
  {
    if ps == [] then [] else [ps[0].name] + PropertyNames(ps[1..])
  }

  /** `properties.get(name)`. */
  function PropertyOf(ps: seq<Property>, name: string): Option<PropertyValue> {
    if ps == [] then None
    else if ps[0].name == name then Some(ps[0].value)
    else PropertyOf(ps[1..], name)
  }

  /** The `error` property of a problem detail, when it is text. */
  function ErrorCode(p: ProblemDetail): Option<string> {
    match PropertyOf(p.properties, "error")
    case Some(Text(code)) => Some(code)
    case _ => None
  }

  /** `setProperty(name, value)` on the properties' linked map: replace in place, or append a new entry. */
  function SetProperty(p: ProblemDetail, name: string, value: PropertyValue): (r: ProblemDetail)
    ensures r.status == p.status && r.detail == p.detail
    ensures PropertyOf(r.properties, name) == Some(value)
    ensures forall other :: other != name ==> PropertyOf(r.properties, other) == PropertyOf(p.properties, other)
    ensures name in PropertyNames(p.properties) ==> PropertyNames(r.properties) == PropertyNames(p.properties)
    ensures name !in PropertyNames(p.properties) ==> PropertyNames(r.properties) == PropertyNames(p.properties) + [name]
  {
    PutNames(p.properties, name, value);
    assert forall other :: PropertyOf(Put(p.properties, name, value), other) == if other == name then Some(value) else PropertyOf(p.properties, other) by {
      forall other {
        PutLookup(p.properties, name, value, other);
      }
    }
    p.(properties := Put(p.properties, name, value))
  }

  /** The linked map's `put`: the entry named `name` gets the new value in place, or a new entry is appended. */
  function Put(ps: seq<Property>, name: string, value: PropertyValue): (r: seq<Property>)
    ensures |r| == |ps| || |r| == |ps| + 1
  {
    if ps == [] then [Property(name, value)]
    else if ps[0].name == name then [Property(name, value)] + ps[1..]
    else [ps[0]] + Put(ps[1..], name, value)
  }

  lemma {:induction false} PutLookup(ps: seq<Property>, name: string, value: PropertyValue, other: string)
    ensures PropertyOf(Put(ps, name, value), other) == if other == name then Some(value) else PropertyOf(ps, other)
  {
    if ps != [] {
      var r := Put(ps, name, value);
      if ps[0].name == name {
        assert r[1..] == ps[1..];
      } else {
        PutLookup(ps[1..], name, value, other);
        assert r[1..] == Put(ps[1..], name, value);
      }
    }
  }

  lemma {:induction false} PutNames(ps: seq<Property>, name: string, value: PropertyValue)
    ensures name in PropertyNames(ps) ==> PropertyNames(Put(ps, name, value)) == PropertyNames(ps)
    ensures name !in PropertyNames(ps) ==> PropertyNames(Put(ps, name, value)) == PropertyNames(ps) + [name]
  {
    if ps != [] && ps[0].name != name {
      var rest := PropertyNames(ps[1..]);
      PutNames(ps[1..], name, value);
      assert ([ps[0]] + Put(ps[1..], name, value))[1..] == Put(ps[1..], name, value);
      assert [ps[0].name] + (rest + [name]) == ([ps[0].name] + rest) + [name];
    } else if ps != [] {
      assert ([Property(name, value)] + ps[1..])[1..] == ps[1..];
    }
  }

  /** `createProblemDetail`: status and detail, with `error` as the first and only property. */
  function CreateProblemDetail(status: StatusCode, detail: string, errorCode: string): (p: ProblemDetail)
    ensures p.status == status && p.detail == detail
    ensures PropertyNames(p.properties) == ["error"]
    ensures ErrorCode(p) == Some(errorCode)
  {
    SetProperty(ProblemDetail(status, detail, []), "error", Text(errorCode))
  }

  /** Every problem detail the handlers build lists `error` first. */
  predicate ErrorFirst(p: ProblemDetail) {
    p.properties != [] && p.properties[0].name == "error"
  }

  lemma {:induction false} ErrorStaysFirst(p: ProblemDetail, name: string, value: PropertyValue)
    requires ErrorFirst(p) && ErrorCode(p).Some?
    requires name != "error"
    ensures ErrorFirst(SetProperty(p, name, value))
    ensures ErrorCode(SetProperty(p, name, value)) == ErrorCode(p)
  {
    var names := PropertyNames(p.properties);
    var r := SetProperty(p, name, value);
    assert names[0] == "error";
    assert PropertyNames(r.properties)[0] == "error";
  }

  // ---------------------------------------------------------------------
  // The handlers

  /** `joinToString(", ")` over the methods' names. */
  function MethodNames(methods: seq<HttpMethod>): (r: seq<string>)
    ensures |r| == |methods|
    ensures forall i :: 0 <= i < |methods| ==> r[i] == methods[i].name
  {
    seq(|methods|, i requires 0 <= i < |methods| => methods[i].name)
  }

  const LIST_SEPARATOR := ", "

  function HandleServerErrorException(loc: Localization, ex: Thrown, headers: HttpHeaders, status: StatusCode, exchange: Exchange): (r: ResponseEntity)
    requires ex.ServerFailure?
    ensures r.body.status == INTERNAL_SERVER_ERROR && r.headers == headers && r.status == status
    ensures r.body.detail == GetLocalizedMessage(loc, "error.server_error", exchange, [])
    ensures ErrorFirst(r.body) && ErrorCode(r.body) == Some("server_error")
  {
    var p := CreateProblemDetail(INTERNAL_SERVER_ERROR, GetLocalizedMessage(loc, "error.server_error", exchange, []), "server_error");
    ResponseEntity(p, headers, status)
  }

  function HandleMethodNotAllowedException(loc: Localization, ex: Thrown, headers: HttpHeaders, status: StatusCode, exchange: Exchange): (r: ResponseEntity)
    requires ex.MethodNotAllowed?
    ensures r.body.status == METHOD_NOT_ALLOWED && r.headers == headers && r.status == status
    ensures r.body.detail == GetLocalizedMessage(loc, "error.method_not_allowed", exchange, [])
    ensures ErrorFirst(r.body) && ErrorCode(r.body) == Some("method_not_allowed")
    ensures PropertyNames(r.body.properties) == ["error", "allowedMethods"]
    ensures PropertyOf(r.body.properties, "allowedMethods") == Some(Text(JoinToString(MethodNames(ex.supportedMethods), LIST_SEPARATOR)))
  {
    var p := CreateProblemDetail(METHOD_NOT_ALLOWED, GetLocalizedMessage(loc, "error.method_not_allowed", exchange, []), "method_not_allowed");
    ErrorStaysFirst(p, "allowedMethods", Text(JoinToString(MethodNames(ex.supportedMethods), LIST_SEPARATOR)));
    ResponseEntity(SetProperty(p, "allowedMethods", Text(JoinToString(MethodNames(ex.supportedMethods), LIST_SEPARATOR))), headers, status)
  }

  function HandleNotAcceptableStatusException(loc: Localization, ex: Thrown, headers: HttpHeaders, status: StatusCode, exchange: Exchange): (r: ResponseEntity)
    requires ex.NotAcceptable?
    ensures r.body.status == NOT_ACCEPTABLE && r.headers == headers && r.status == status
    ensures r.body.detail == GetLocalizedMessage(loc, "error.not_acceptable", exchange, [])
    ensures ErrorFirst(r.body) && ErrorCode(r.body) == Some("not_acceptable")
    ensures PropertyNames(r.body.properties) == ["error"]
  {
    var p := CreateProblemDetail(NOT_ACCEPTABLE, GetLocalizedMessage(loc, "error.not_acceptable", exchange, []), "not_acceptable");
    ResponseEntity(p, headers, status)
  }

  function HandleUnsupportedMediaTypeStatusException(loc: Localization, ex: Thrown, headers: HttpHeaders, status: StatusCode, exchange: Exchange): (r: ResponseEntity)
    requires ex.UnsupportedMediaType?
    ensures r.body.status == UNSUPPORTED_MEDIA_TYPE && r.headers == headers && r.status == status
    ensures r.body.detail == GetLocalizedMessage(loc, "error.unsupported_media_type", exchange, [])
    ensures ErrorFirst(r.body) && ErrorCode(r.body) == Some("unsupported_media_type")
    ensures PropertyNames(r.body.properties) == ["error", "supportedMediaTypes"]
    ensures PropertyOf(r.body.properties, "supportedMediaTypes") == Some(Text(JoinToString(ex.supportedMediaTypes, LIST_SEPARATOR)))
  {
    var p := CreateProblemDetail(UNSUPPORTED_MEDIA_TYPE, GetLocalizedMessage(loc, "error.unsupported_media_type", exchange, []), "unsupported_media_type");
    ErrorStaysFirst(p, "supportedMediaTypes", Text(JoinToString(ex.supportedMediaTypes, LIST_SEPARATOR)));
    ResponseEntity(SetProperty(p, "supportedMediaTypes", Text(JoinToString(ex.supportedMediaTypes, LIST_SEPARATOR))), headers, status)
  }

  /** The violations of a bind failure: its field errors in order, then its global errors in order. */
  function BindViolations(fieldErrors: seq<FieldError>, globalErrors: seq<ObjectError>): (r: seq<Violation>)
    ensures |r| == |fieldErrors| + |globalErrors|
    ensures forall i :: 0 <= i < |fieldErrors| ==> r[i] == FromFieldError(fieldErrors[i])
    ensures forall i :: 0 <= i < |globalErrors| ==> r[|fieldErrors| + i] == FromObjectError(globalErrors[i])
  {
    seq(|fieldErrors|, i requires 0 <= i < |fieldErrors| => FromFieldError(fieldErrors[i]))
    + seq(|globalErrors|, i requires 0 <= i < |globalErrors| => FromObjectError(globalErrors[i]))
  }

  /** Field-error violations name their field; global-error violations carry no object name. */
  lemma BindViolationsShape(fieldErrors: seq<FieldError>, globalErrors: seq<ObjectError>, i: nat)
    requires i < |fieldErrors| + |globalErrors|
    ensures var v := BindViolations(fieldErrors, globalErrors)[i];
      if i < |fieldErrors| then v.objectName.Some? && v.field == Some(fieldErrors[i].field) && v.message == fieldErrors[i].defaultMessage
      else v.objectName.None? && v.message == globalErrors[i - |fieldErrors|].defaultMessage
  {
  }

  function HandleWebExchangeBindException(loc: Localization, ex: Thrown, headers: HttpHeaders, status: StatusCode, exchange: Exchange): (r: ResponseEntity)
    requires ex.BindFailure?
    ensures r.body.status == BAD_REQUEST && r.headers == headers && r.status == status
    ensures r.body.detail == GetLocalizedMessage(loc, "error.validation_failed", exchange, [])
    ensures ErrorFirst(r.body) && ErrorCode(r.body) == Some("invalid_request")
    ensures PropertyNames(r.body.properties) == ["error", "violations"]
    ensures PropertyOf(r.body.properties, "violations") == Some(ViolationList(BindViolations(ex.fieldErrors, ex.globalErrors)))
  {
    var p := CreateProblemDetail(BAD_REQUEST, GetLocalizedMessage(loc, "error.validation_failed", exchange, []), "invalid_request");
    ErrorStaysFirst(p, "violations", ViolationList(BindViolations(ex.fieldErrors, ex.globalErrors)));
    ResponseEntity(SetProperty(p, "violations", ViolationList(BindViolations(ex.fieldErrors, ex.globalErrors))), headers, status)
  }

  /** The violations of a constraint-violation exception, one per constraint violation, in order. */
  function ConstraintViolations(cvs: seq<ConstraintViolation>): (r: seq<Violation>)
    ensures |r| == |cvs|
    ensures forall i :: 0 <= i < |cvs| ==> r[i] == ViolationOf(cvs[i])
  {
    seq(|cvs|, i requires 0 <= i < |cvs| => ViolationOf(cvs[i]))
  }

  function HandleConstraintViolationException(loc: Localization, ex: Thrown, headers: HttpHeaders, status: StatusCode, exchange: Exchange): (r: ResponseEntity)
    requires ex.ConstraintFailure?
    ensures r.body.status == BAD_REQUEST && r.headers == headers && r.status == status
    ensures r.body.detail == GetLocalizedMessage(loc, "error.validation_failed", exchange, [])
    ensures ErrorFirst(r.body) && ErrorCode(r.body) == Some("invalid_request")
    ensures PropertyNames(r.body.properties) == ["error", "violations"]
    ensures PropertyOf(r.body.properties, "violations") == Some(ViolationList(ConstraintViolations(ex.constraintViolations)))
  {
    var p := CreateProblemDetail(BAD_REQUEST, GetLocalizedMessage(loc, "error.validation_failed", exchange, []), "invalid_request");
    ErrorStaysFirst(p, "violations", ViolationList(ConstraintViolations(ex.constraintViolations)));
    ResponseEntity(SetProperty(p, "violations", ViolationList(ConstraintViolations(ex.constraintViolations))), headers, status)
  }

  function HandleServerWebInputException(loc: Localization, ex: Thrown, headers: HttpHeaders, status: StatusCode, exchange: Exchange): (r: ResponseEntity)
    requires IsA(ClassOf(ex), ServerWebInputException)
    ensures r.body.status == BAD_REQUEST && r.headers == headers && r.status == status
    ensures r.body.detail == GetLocalizedMessage(loc, "error.invalid_request", exchange, [])
    ensures ErrorFirst(r.body) && ErrorCode(r.body) == Some("invalid_request")
    ensures PropertyNames(r.body.properties) == ["error"]
  {
    var p := CreateProblemDetail(BAD_REQUEST, GetLocalizedMessage(loc, "error.invalid_request", exchange, []), "invalid_request");
    ResponseEntity(p, headers, status)
  }

  const DEFAULT_REASON := "Error occurred."

  function HandleResponseStatusException(ex: Thrown, headers: HttpHeaders, status: StatusCode): (r: ResponseEntity)
    requires IsResponseStatus(ex)
    ensures r.body.status == StatusCodeOf(ex) && r.headers == headers && r.status == status
    ensures ex.reason.Some? ==> r.body.detail == ex.reason.value
    ensures ex.reason.None? ==> r.body.detail == DEFAULT_REASON
    ensures ErrorFirst(r.body) && ErrorCode(r.body) == Some("response_status_exception")
    ensures PropertyNames(r.body.properties) == ["error"]
  {
    var p := CreateProblemDetail(StatusCodeOf(ex), ex.reason.GetOr(DEFAULT_REASON), "response_status_exception");
    ResponseEntity(p, headers, status)
  }

  function CreateDefaultErrorResponse(loc: Localization, ex: Thrown, status: StatusCode, exchange: Exchange): (r: ResponseEntity)
    ensures r.body.status == status && r.headers == [] && r.status == status
    ensures r.body.detail == GetLocalizedMessage(loc, "error.server_error", exchange, [])
    ensures ErrorFirst(r.body) && ErrorCode(r.body) == Some("server_error")
    ensures PropertyNames(r.body.properties) == ["error"]
  {
    var p := CreateProblemDetail(status, GetLocalizedMessage(loc, "error.server_error", exchange, []), "server_error");
    ResponseEntity(p, [], status)
  }

  function HandleSocketTimeoutException(loc: Localization, ex: Thrown, headers: HttpHeaders, status: StatusCode, exchange: Exchange): (r: ResponseEntity)
    requires ex.SocketTimeout?
    ensures r.body.status == GATEWAY_TIMEOUT && r.headers == headers && r.status == status
    ensures r.body.detail == GetLocalizedMessage(loc, "error.gateway_timeout", exchange, [])
    ensures ErrorFirst(r.body) && ErrorCode(r.body) == Some("gateway_timeout")
    ensures PropertyNames(r.body.properties) == ["error"]
  {
    var p := CreateProblemDetail(GATEWAY_TIMEOUT, GetLocalizedMessage(loc, "error.gateway_timeout", exchange, []), "gateway_timeout");
    ResponseEntity(p, headers, status)
  }

  function HandleUnsupportedOperationException(loc: Localization, ex: Thrown, headers: HttpHeaders, status: StatusCode, exchange: Exchange): (r: ResponseEntity)
    requires ex.UnsupportedOperation?
    ensures r.body.status == NOT_IMPLEMENTED && r.headers == headers && r.status == status
    ensures r.body.detail == GetLocalizedMessage(loc, "error.unsupported_operation", exchange, [])
    ensures ErrorFirst(r.body) && ErrorCode(r.body) == Some("unsupported_operation")
    ensures PropertyNames(r.body.properties) == ["error"]
  {
    var p := CreateProblemDetail(NOT_IMPLEMENTED, GetLocalizedMessage(loc, "error.unsupported_operation", exchange, []), "unsupported_operation");
    ResponseEntity(p, headers, status)
  }

  /** `handleException`: the first matching branch in declaration order, else the default 500 response. */
  function HandleException(loc: Localization, ex: Thrown, exchange: Exchange): (r: ResponseEntity)
    ensures r.status == r.body.status
    ensures ErrorFirst(r.body)
    ensures IsResponseStatus(ex) ==> r.headers == ex.headers
    ensures !IsResponseStatus(ex) ==> r.headers == []
    ensures r.status == ExpectedStatus(ex)
    ensures ErrorCode(r.body) == Some(ExpectedCode(ex))
  {
    DispatchReachesIntendedHandler(ex);
    match FirstMatch(ClassOf(ex), HANDLED)
    case Some(0) => HandleMethodNotAllowedException(loc, ex, ex.headers, StatusCodeOf(ex), exchange)
    case Some(1) => HandleNotAcceptableStatusException(loc, ex, ex.headers, StatusCodeOf(ex), exchange)
    case Some(2) => HandleUnsupportedMediaTypeStatusException(loc, ex, ex.headers, StatusCodeOf(ex), exchange)
    case Some(3) => HandleWebExchangeBindException(loc, ex, ex.headers, StatusCodeOf(ex), exchange)
    case Some(4) => HandleConstraintViolationException(loc, ex, [], BAD_REQUEST, exchange)
    case Some(5) => HandleServerWebInputException(loc, ex, ex.headers, StatusCodeOf(ex), exchange)
    case Some(6) => HandleServerErrorException(loc, ex, ex.headers, StatusCodeOf(ex), exchange)
    case Some(7) => HandleResponseStatusException(ex, ex.headers, StatusCodeOf(ex))
    case Some(8) => HandleSocketTimeoutException(loc, ex, [], GATEWAY_TIMEOUT, exchange)
    case Some(9) => HandleUnsupportedOperationException(loc, ex, [], NOT_IMPLEMENTED, exchange)
    case _ => CreateDefaultErrorResponse(loc, ex, INTERNAL_SERVER_ERROR, exchange)
  }

  // ---------------------------------------------------------------------
  // What each kind of exception turns into

  /** The status and error code each kind of exception is answered with. */
  function ExpectedStatus(ex: Thrown): StatusCode {
    match ex
    case MethodNotAllowed(_, _, _) => METHOD_NOT_ALLOWED
    case NotAcceptable(_, _, _) => NOT_ACCEPTABLE
    case UnsupportedMediaType(_, _, _) => UNSUPPORTED_MEDIA_TYPE
    case BindFailure(_, _, _, _) => BAD_REQUEST
    case ConstraintFailure(_) => BAD_REQUEST
    case InputFailure(_, _) => BAD_REQUEST
    case ServerFailure(_, _) => INTERNAL_SERVER_ERROR
    case StatusFailure(code, _, _) => code
    case SocketTimeout(_) => GATEWAY_TIMEOUT
    case UnsupportedOperation(_) => NOT_IMPLEMENTED
    case _ => INTERNAL_SERVER_ERROR
  }

  function ExpectedCode(ex: Thrown): string {
    match ex
    case MethodNotAllowed(_, _, _) => "method_not_allowed"
    case NotAcceptable(_, _, _) => "not_acceptable"
    case UnsupportedMediaType(_, _, _) => "unsupported_media_type"
    case BindFailure(_, _, _, _) => "invalid_request"
    case ConstraintFailure(_) => "invalid_request"
    case InputFailure(_, _) => "invalid_request"
    case ServerFailure(_, _) => "server_error"
    case StatusFailure(_, _, _) => "response_status_exception"
    case SocketTimeout(_) => "gateway_timeout"
    case UnsupportedOperation(_) => "unsupported_operation"
    case _ => "server_error"
  }

  /** A bind failure reaches its own handler, not its supertype's: its violations are listed, field errors first. */
  lemma BindFailureOutcome(loc: Localization, ex: Thrown, exchange: Exchange)
    requires ex.BindFailure?
    ensures HandleException(loc, ex, exchange).body.detail == GetLocalizedMessage(loc, "error.validation_failed", exchange, [])
    ensures PropertyOf(HandleException(loc, ex, exchange).body.properties, "violations") == Some(ViolationList(BindViolations(ex.fieldErrors, ex.globalErrors)))
  {
    DispatchReachesIntendedHandler(ex);
  }

  /** A constraint-violation exception lists one violation per constraint violation, with fresh empty headers. */
  lemma ConstraintFailureOutcome(loc: Localization, ex: Thrown, exchange: Exchange)
    requires ex.ConstraintFailure?
    ensures HandleException(loc, ex, exchange).headers == []
    ensures PropertyOf(HandleException(loc, ex, exchange).body.properties, "violations") == Some(ViolationList(ConstraintViolations(ex.constraintViolations)))
  {
    DispatchReachesIntendedHandler(ex);
  }

  /** A plain `ResponseStatusException` keeps its own status and shows its reason, or the stock text. */
  lemma ResponseStatusOutcome(loc: Localization, ex: Thrown, exchange: Exchange)
    requires ex.StatusFailure?
    ensures HandleException(loc, ex, exchange).status == ex.statusCode
    ensures HandleException(loc, ex, exchange).body.detail == ex.reason.GetOr(DEFAULT_REASON)
    ensures HandleException(loc, ex, exchange).headers == ex.headers
  {
    DispatchReachesIntendedHandler(ex);
    assert FirstMatch(ClassOf(ex), HANDLED) == Some(7);
    assert HandleException(loc, ex, exchange) == HandleResponseStatusException(ex, ex.headers, StatusCodeOf(ex));
  }

  /** The allowed methods are listed comma-separated: GET and PUT give "GET, PUT". */
  lemma AllowedMethodsExample(loc: Localization, ex: Thrown, headers: HttpHeaders, status: StatusCode, exchange: Exchange)
    requires ex.MethodNotAllowed? && ex.supportedMethods == [GET, PUT]
    ensures PropertyOf(HandleMethodNotAllowedException(loc, ex, headers, status, exchange).body.properties, "allowedMethods")
      == Some(Text("GET, PUT"))
  {
    var names := MethodNames(ex.supportedMethods);
    assert names == ["GET", "PUT"];
    JoinTwo("GET", "PUT");
    assert "GET" + ", " + "PUT" == "GET, PUT";
  }

  lemma JoinTwo(a: string, b: string)
    ensures JoinToString([a, b], LIST_SEPARATOR) == a + ", " + b
  {
    assert [a, b][..1] == [a];
  }
}
