/**
 * The `@EnumConstraint` validator: a value passes when it is null, or a string
 * or enum constant whose name is one of the constraint's enum constants. A
 * failing value replaces the default violation by one built from the
 * constraint's message with two message parameters.
 */
module EnumValidation {

  import opened Text
  import opened Violations

  /** `@EnumConstraint`: the constants of its enum class, in declaration order, and its message. */
  datatype EnumConstraint = EnumConstraint(enumConstants: seq<string>, message: string)

  const DEFAULT_MESSAGE := "{jakarta.validation.constraints.Enum.message}"

  /** A parameter handed to the message interpolator. */
  datatype MessageParameter = MessageParameter(name: string, value: Value)

  /** Kotlin's `toSet()` on a list: the first occurrence of each element, in order. */
  function Distinct(xs: seq<string>): (r: seq<string>)
    ensures forall x :: x in r <==> x in xs
    ensures forall i, j :: 0 <= i < j < |r| ==> r[i] != r[j]
  {
    if xs == [] then []
    else
      var rest := Distinct(xs[..|xs| - 1]);
      if xs[|xs| - 1] in rest then rest else rest + [xs[|xs| - 1]]
  }

  /** `joinToString(separator)`. */
  function JoinToString(parts: seq<string>, separator: string): (r: string)
    ensures parts == [] ==> r == ""
    ensures |parts| == 1 ==> r == parts[0]
  {
    if parts == [] then ""
    else if |parts| == 1 then parts[0]
    else JoinToString(parts[..|parts| - 1], separator) + separator + parts[|parts| - 1]
  }

  /** Every name shows up in the joined list. */
  lemma {:induction false} JoinToStringContains(parts: seq<string>, separator: string, i: nat)
    requires i < |parts|
    ensures exists k: nat :: OccursAt(JoinToString(parts, separator), parts[i], k)
  {
    var r := JoinToString(parts, separator);
    if |parts| == 1 {
      assert r[0..|parts[i]|] == parts[i];
      assert OccursAt(r, parts[i], 0);
    } else if i == |parts| - 1 {
      var prefix := JoinToString(parts[..|parts| - 1], separator) + separator;
      assert r == prefix + parts[i];
      assert r[|prefix|..|prefix| + |parts[i]|] == parts[i];
      assert OccursAt(r, parts[i], |prefix|);
    } else {
      var front := JoinToString(parts[..|parts| - 1], separator);
      JoinToStringContains(parts[..|parts| - 1], separator, i);
      var k: nat :| OccursAt(front, (parts[..|parts| - 1])[i], k);
      assert r == front + (separator + parts[|parts| - 1]);
      assert r[k..k + |parts[i]|] == front[k..k + |parts[i]|];
      assert OccursAt(r, parts[i], k);
    }
  }

  /** Hibernate's validator context, reduced to what the validator changes. */
  class ValidatorContext {
    var defaultViolationDisabled: bool
    var messageParameters: seq<MessageParameter>
    var violationTemplates: seq<string>

    constructor()
      ensures !defaultViolationDisabled && messageParameters == [] && violationTemplates == []
    {
      defaultViolationDisabled := false;
      messageParameters := [];
      violationTemplates := [];
    }
  }

  /** Whether a value passes: null always, a string or an enum constant by its name, anything else never. */
  predicate Accepted(allowedValues: seq<string>, value: Value) {
    match value
    case NullValue => true
    case StringValue(text) => text in allowedValues
    case EnumConstant(_, name) => name in allowedValues
    case Other(_) => false
  }

  /** The parameters a failing value adds: the value itself and the allowed names joined by ", ". */
  function FailureParameters(allowedValues: seq<string>, value: Value): seq<MessageParameter> {
    [MessageParameter("value", value), MessageParameter("allowedValues", StringValue(JoinToString(allowedValues, ", ")))]
  }

  class EnumValidator {
    var allowedValues: seq<string>
    var message: string
    var initialized: bool

    constructor()
      ensures !initialized
    {
      allowedValues := [];
      message := "";
      initialized := false;
    }

    /** `initialize`: the names of the enum's constants, once each, in declaration order, and the message. */
    method Initialize(annotation: EnumConstraint)
      modifies this
      ensures initialized && message == annotation.message
      ensures allowedValues == Distinct(annotation.enumConstants)
      ensures forall name :: name in allowedValues <==> name in annotation.enumConstants
    {
      allowedValues := Distinct(annotation.enumConstants);
      message := annotation.message;
      initialized := true;
    }

    /**
     * `isValid`: reports whether the value passes; a failing value disables
     * the default violation, adds the value and the comma-separated allowed
     * names as message parameters and one violation with the message. A
     * passing value leaves the context alone.
     */
    method IsValid(value: Value, context: ValidatorContext) returns (valid: bool)
      requires initialized || value.NullValue?
      modifies context
      ensures valid == Accepted(allowedValues, value)
      ensures valid ==> context.defaultViolationDisabled == old(context.defaultViolationDisabled)
      ensures valid ==> context.messageParameters == old(context.messageParameters)
      ensures valid ==> context.violationTemplates == old(context.violationTemplates)
      ensures !valid ==> context.defaultViolationDisabled
      ensures !valid ==> context.messageParameters == old(context.messageParameters) + FailureParameters(allowedValues, value)
      ensures !valid ==> context.violationTemplates == old(context.violationTemplates) + [message]
    {
      if value.NullValue? {
        return true;
      }
      match value {
        case StringValue(text) => valid := text in allowedValues;
        case EnumConstant(_, name) => valid := name in allowedValues;
        case Other(_) => valid := false;
      }
      if !valid {
        var allowedValuesString := JoinToString(allowedValues, ", ");
        context.defaultViolationDisabled := true;
        context.messageParameters := context.messageParameters + [MessageParameter("value", value)];
        context.messageParameters := context.messageParameters + [MessageParameter("allowedValues", StringValue(allowedValuesString))];
        context.violationTemplates := context.violationTemplates + [message];
      }
    }
  }

  /** Only the constant's name is compared, so a constant of another enum with a listed name passes. */
  lemma EnumCheckedByName(constraint: EnumConstraint, enumClass: string, name: string)
    requires name in constraint.enumConstants
    ensures Accepted(Distinct(constraint.enumConstants), EnumConstant(enumClass, name))
  {
  }
}
