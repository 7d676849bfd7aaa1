/**
 * The validation `Violation` record and its four ways of being built: from a
 * bare object name and message, from a field error, from an object (global)
 * error and from a bean-validation constraint violation.
 */
module Violations {

  import opened Wrappers
  import opened Text
  import opened StringUtils

  /** A rejected or validated value, as far as the model needs to tell values apart. */
  datatype Value = NullValue | StringValue(text: string) | EnumConstant(enumClass: string, name: string) | Other(description: string)

  datatype Violation = Violation(
    code: Option<string>,
    objectName: Option<string>,
    field: Option<string>,
    rejectedValue: Value,
    message: Option<string>)

  /** Spring's `FieldError`: an error bound to one field of the validated object. */
  datatype FieldError = FieldError(objectName: string, field: string, rejectedValue: Value, code: Option<string>, defaultMessage: Option<string>)

  /** Spring's `ObjectError`: an error about the validated object as a whole. */
  datatype ObjectError = ObjectError(objectName: string, code: Option<string>, defaultMessage: Option<string>)

  /** One node of a bean-validation property path; bean and parameter nodes may have no name. */
  datatype PathNode = PathNode(name: Option<string>)

  /** A bean-validation `ConstraintViolation`. */
  datatype ConstraintViolation = ConstraintViolation(
    annotationSimpleName: Option<string>,
    propertyPath: seq<PathNode>,
    invalidValue: Value,
    message: string)

  /** The literal text passed to `replaceFirst`; it is not a regular expression there. */
  const DTO_SUFFIX := "DTO$"

  /** `replaceFirst("DTO$", "")`, a literal replacement of the first occurrence. */
  function StripDtoSuffix(name: string): (r: string)
    ensures (forall j :: !OccursAt(name, DTO_SUFFIX, j)) ==> r == name
    ensures |r| == |name| || |r| == |name| - |DTO_SUFFIX|
  {
    ReplaceFirst(name, DTO_SUFFIX, "")
  }

  /** Because the pattern is taken literally, a name ending in "DTO" keeps its suffix. */
  lemma DtoSuffixKept()
    ensures StripDtoSuffix("todoDTO") == "todoDTO"
  {
    var name := "todoDTO";
    assert '$' !in name;
    forall j: nat
      ensures !OccursAt(name, DTO_SUFFIX, j)
    {
      if j + |DTO_SUFFIX| <= |name| {
        assert name[j..j + |DTO_SUFFIX|][3] == name[j + 3];
        assert name[j + 3] in name;
      }
    }
  }

  /** `code?.toSnakeCase()`. */
  function SnakeCode(code: Option<string>): (r: Option<string>)
    ensures r.Some? <==> code.Some?
    ensures r.Some? ==> HasNoUpper(r.value) && WithoutUnderscores(r.value) == Lower(WithoutUnderscores(code.value))
  {
    match code
    case None => None
    case Some(c) =>
      ToSnakeCaseOnlyInsertsUnderscores(c);
      Some(ToSnakeCase(c))
  }

  /** `Violation(objectName, message)`: only the object name and the message are set. */
  function FromMessage(objectName: string, message: string): (v: Violation)
    ensures v.objectName == Some(objectName) && v.message == Some(message)
    ensures v.code.None? && v.field.None? && v.rejectedValue == NullValue
  {
    Violation(None, Some(objectName), None, NullValue, Some(message))
  }

  /** `Violation(FieldError)`: snake-cased code, object name without the literal suffix, field, value and message copied. */
  function FromFieldError(error: FieldError): (v: Violation)
    ensures v.code.Some? <==> error.code.Some?
    ensures v.code.Some? ==> HasNoUpper(v.code.value)
    ensures v.objectName.Some?
    ensures (forall j :: !OccursAt(error.objectName, DTO_SUFFIX, j)) ==> v.objectName == Some(error.objectName)
    ensures v.field == Some(error.field) && v.rejectedValue == error.rejectedValue && v.message == error.defaultMessage
  {
    Violation(SnakeCode(error.code), Some(StripDtoSuffix(error.objectName)), Some(error.field), error.rejectedValue, error.defaultMessage)
  }

  /** `Violation(ObjectError)`: the object name goes into the field slot; no object name and no value. */
  function FromObjectError(error: ObjectError): (v: Violation)
    ensures v.code.Some? <==> error.code.Some?
    ensures v.code.Some? ==> HasNoUpper(v.code.value)
    ensures v.objectName.None? && v.rejectedValue == NullValue && v.field.Some?
    ensures (forall j :: !OccursAt(error.objectName, DTO_SUFFIX, j)) ==> v.field == Some(error.objectName)
    ensures v.message == error.defaultMessage
  {
    Violation(SnakeCode(error.code), None, Some(StripDtoSuffix(error.objectName)), NullValue, error.defaultMessage)
  }

  /** The name of the last node of a path, or nothing for an empty path. */
  function LastName(path: seq<PathNode>): Option<string> {
    if path == [] then None else path[|path| - 1].name
  }

  /** `getField`: walks the path and keeps the name of the last node seen. */
  method GetField(propertyPath: seq<PathNode>) returns (fieldName: Option<string>)
    ensures propertyPath == [] ==> fieldName.None?
    ensures propertyPath != [] ==> fieldName == propertyPath[|propertyPath| - 1].name
  {
    fieldName := None;
    for i := 0 to |propertyPath|
      invariant fieldName == LastName(propertyPath[..i])
    {
      fieldName := propertyPath[i].name;
    }
    assert propertyPath[..|propertyPath|] == propertyPath;
  }

  /** The violation built from a constraint violation: the annotation's name snake-cased, the last path node as field. */
  function ViolationOf(violation: ConstraintViolation): (v: Violation)
    ensures v.code.Some? <==> violation.annotationSimpleName.Some?
    ensures v.code.Some? ==> HasNoUpper(v.code.value)
    ensures v.objectName.None?
    ensures violation.propertyPath == [] ==> v.field.None?
    ensures violation.propertyPath != [] ==> v.field == violation.propertyPath[|violation.propertyPath| - 1].name
    ensures v.rejectedValue == violation.invalidValue && v.message == Some(violation.message)
  {
    Violation(SnakeCode(violation.annotationSimpleName), None, LastName(violation.propertyPath), violation.invalidValue, Some(violation.message))
  }

  /** `Violation(ConstraintViolation)`, walking the path with `getField`. */
  method FromConstraintViolation(violation: ConstraintViolation) returns (v: Violation)
    ensures v == ViolationOf(violation)
  {
    var field := GetField(violation.propertyPath);
    v := Violation(SnakeCode(violation.annotationSimpleName), None, field, violation.invalidValue, Some(violation.message));
  }
}
