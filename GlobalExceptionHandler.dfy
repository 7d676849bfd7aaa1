/**
 * The application's exception advice: on top of the base handler it answers
 * any other exception with a 500, and the application's own not-found,
 * conflict and validation exceptions with 404, 409 and 400. Every answer
 * carries fresh empty headers and the same status as its problem detail.
 */
module GlobalExceptionHandling {

  import opened Wrappers
  import opened Violations
  import opened ExceptionHandling

  /** The arguments a resource exception hands to the message lookup: name, criteria, value. */
  function ResourceArgs(resourceName: string, searchCriteria: string, searchValue: Value): (r: seq<MessageArg>)
    ensures |r| == 3 && r[2] == ValueArg(searchValue)
    ensures r[0] == ValueArg(StringValue(resourceName)) && r[1] == ValueArg(StringValue(searchCriteria))
  {
    [ValueArg(StringValue(resourceName)), ValueArg(StringValue(searchCriteria)), ValueArg(searchValue)]
  }

  /** The arguments of a validation exception's lookup: the exception itself, then its own arguments. */
  function ValidationArgs(ex: Thrown): (r: seq<MessageArg>)
    requires ex.ValidationFailure?
    ensures |r| == |ex.args| + 1 && r[0] == ExceptionArg(ex)
    ensures forall i :: 0 <= i < |ex.args| ==> r[i + 1] == ValueArg(ex.args[i])
  {
    [ExceptionArg(ex)] + seq(|ex.args|, i requires 0 <= i < |ex.args| => ValueArg(ex.args[i]))
  }

  /** A response as every handler here builds it: fresh empty headers, the problem's own status. */
  predicate PlainResponse(r: ResponseEntity, status: StatusCode, errorCode: string) {
    r.status == status && r.body.status == status && r.headers == []
    && ErrorFirst(r.body) && ErrorCode(r.body) == Some(errorCode)
  }

  function HandleGenericException(loc: Localization, ex: Thrown, exchange: Exchange): (r: ResponseEntity)
    ensures PlainResponse(r, INTERNAL_SERVER_ERROR, "server_error")
    ensures r.body.detail == GetLocalizedMessage(loc, "error.server_error", exchange, [])
  {
    var p := CreateProblemDetail(INTERNAL_SERVER_ERROR, GetLocalizedMessage(loc, "error.server_error", exchange, []), "server_error");
    ResponseEntity(p, [], INTERNAL_SERVER_ERROR)
  }

  /** The generic handler answers exactly as the base handler's own fall-back does. */
  lemma GenericAgreesWithDefault(loc: Localization, ex: Thrown, exchange: Exchange)
    ensures HandleGenericException(loc, ex, exchange) == CreateDefaultErrorResponse(loc, ex, INTERNAL_SERVER_ERROR, exchange)
  {
  }

  function HandleResourceNotFoundException(loc: Localization, ex: Thrown, exchange: Exchange): (r: ResponseEntity)
    requires ex.ResourceNotFound?
    ensures PlainResponse(r, NOT_FOUND, "resource_not_found")
    ensures r.body.detail == GetLocalizedMessage(loc, "error.resource_not_found", exchange, ResourceArgs(ex.resourceName, ex.searchCriteria, ex.searchValue))
  {
    var detail := GetLocalizedMessage(loc, "error.resource_not_found", exchange, ResourceArgs(ex.resourceName, ex.searchCriteria, ex.searchValue));
    ResponseEntity(CreateProblemDetail(NOT_FOUND, detail, "resource_not_found"), [], NOT_FOUND)
  }

  function HandleResourceConflictException(loc: Localization, ex: Thrown, exchange: Exchange): (r: ResponseEntity)
    requires ex.ResourceConflict?
    ensures PlainResponse(r, CONFLICT, "resource_conflict")
    ensures r.body.detail == GetLocalizedMessage(loc, "error.resource_conflict", exchange, ResourceArgs(ex.resourceName, ex.searchCriteria, ex.searchValue))
  {
    var detail := GetLocalizedMessage(loc, "error.resource_conflict", exchange, ResourceArgs(ex.resourceName, ex.searchCriteria, ex.searchValue));
    ResponseEntity(CreateProblemDetail(CONFLICT, detail, "resource_conflict"), [], CONFLICT)
  }

  /** The exception's message is the lookup key; the lookup gets the exception and its arguments. */
  function HandleValidationException(loc: Localization, ex: Thrown, exchange: Exchange): (r: ResponseEntity)
    requires ex.ValidationFailure?
    ensures PlainResponse(r, BAD_REQUEST, "invalid_request")
    ensures r.body.detail == GetLocalizedMessage(loc, ex.validationMessage, exchange, ValidationArgs(ex))
  {
    var detail := GetLocalizedMessage(loc, ex.validationMessage, exchange, ValidationArgs(ex));
    ResponseEntity(CreateProblemDetail(BAD_REQUEST, detail, "invalid_request"), [], BAD_REQUEST)
  }

  /** Without a message source every detail is its key: the validation message itself. */
  lemma ValidationDetailWithoutMessageSource(defaultLocale: Locale, ex: Thrown, exchange: Exchange)
    requires ex.ValidationFailure?
    ensures HandleValidationException(Localization(None, defaultLocale), ex, exchange).body.detail == ex.validationMessage
  {
  }
}
