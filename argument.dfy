/** A controller argument: a named, typed slot for one value of an action call, with a
    short name, a default value, a required flag and a chain of validators. Reflection
    (class_exists, the class schema lookup) is the runtime oracle `env`; what the
    persistence layer or the property mapper returns for a value is passed in. */
module Arguments {
  import opened Common

  /** The validator an argument carries: the validator's class and, for a conjunction,
      the classes of the validators chained into it, in the order they were added. */
  datatype Validator = Validator(className: string, chained: seq<string>)

  const ConjunctionValidatorClass := "Tx_Extbase_Validation_Validator_ConjunctionValidator"

  /** The prefix of the validators the framework ships. */
  const ValidatorPrefix := "Tx_Extbase_Validation_Validator_"

  const DefaultDataType := "Text"

  /** Exception codes. */
  const InvalidNameCode := 1187951688
  const InvalidShortNameCode := 1195824959
  const InvalidValueCode := 1251730701

  /** The class a validator name stands for: the name itself when that class exists,
      otherwise the framework's validator of that name. */
  function ValidatorClassName(name: string, env: Environment): (c: string)
    ensures env.ClassExists(name) ==> c == name
    ensures !env.ClassExists(name) ==> c == ValidatorPrefix + name && c[|ValidatorPrefix|..] == name
  {
    if env.ClassExists(name) then name else ValidatorPrefix + name
  }

  /** The classes of a list of validator names, in order. */
  function ValidatorClassNames(names: seq<string>, env: Environment): (cs: seq<string>)
    ensures |cs| == |names|
    ensures forall i :: 0 <= i < |names| ==> cs[i] == ValidatorClassName(names[i], env)
  {
    if names == [] then [] else ValidatorClassNames(names[..|names| - 1], env) + [ValidatorClassName(names[|names| - 1], env)]
  }

  /** Resolving the names of a concatenation resolves each part. */
  lemma ValidatorClassNamesAppend(a: seq<string>, b: seq<string>, env: Environment)
    ensures ValidatorClassNames(a + b, env) == ValidatorClassNames(a, env) + ValidatorClassNames(b, env)
  {
    var l := ValidatorClassNames(a + b, env);
    var r := ValidatorClassNames(a, env) + ValidatorClassNames(b, env);
    assert |l| == |r|;
    forall i | 0 <= i < |l|
      ensures l[i] == r[i]
    {
      if i < |a| {
        assert (a + b)[i] == a[i];
      } else {
        assert (a + b)[i] == b[i - |a|];
      }
    }
  }

  /** All fields of an argument, as one value. */
  datatype ArgumentFields = ArgumentFields(
    name: string,
    shortName: Option<string>,
    dataType: string,
    hasClassSchema: bool,
    isRequired: bool,
    value: Mixed,
    defaultValue: Mixed,
    validator: Option<Validator>,
    validationDisabled: bool)

  /** What an argument's value becomes: NULL stays NULL, and a value for a data type that
      is not a class passes unchanged. For a class data type the value is resolved to an
      object (`resolved` is what the persistence layer finds for a numeric uid, or what
      the property mapper builds from an array); without a class schema only an array
      can be resolved, and the resolved value must be an instance of the data type. */
  function Transform(value: Mixed, dataType: string, hasClassSchema: bool, env: Environment, resolved: Mixed)
    : (r: Result<Mixed, Exception>)
    ensures value.Null? ==> r == Success(Null)
    ensures !value.Null? && !env.ClassExists(dataType) ==> r == Success(value)
    ensures !value.Null? && env.ClassExists(dataType) && !hasClassSchema && !value.Arr? ==>
      r == Failure(InvalidArgumentValue(InvalidValueCode))
    ensures r.Failure? ==> r.error == InvalidArgumentValue(InvalidValueCode)
    ensures r.Success? && !value.Null? && env.ClassExists(dataType) ==>
      env.InstanceOf(r.value, dataType) && r.value == resolved
  {
    if value.Null? then Success(Null)
    else if !env.ClassExists(dataType) then Success(value)
    else
      var transformed :=
        if hasClassSchema then (if IsNumeric(value) || value.Arr? then resolved else Null)
        else if !value.Arr? then Null
        else resolved;
      if hasClassSchema || value.Arr? then
        (if env.InstanceOf(transformed, dataType) then Success(transformed) else Failure(InvalidArgumentValue(InvalidValueCode)))
      else Failure(InvalidArgumentValue(InvalidValueCode))
  }

  /** A value that is neither numeric nor an array cannot stand for an object, even with a
      class schema. */
  lemma TransformRefusesPlainValue(value: Mixed, dataType: string, hasClassSchema: bool, env: Environment, resolved: Mixed)
    requires !value.Null? && !value.Arr? && !IsNumeric(value) && env.ClassExists(dataType)
    ensures Transform(value, dataType, hasClassSchema, env, resolved) == Failure(InvalidArgumentValue(InvalidValueCode))
  {
    assert !env.InstanceOf(Null, dataType);
  }

  /** A value is accepted for a class data type exactly when what it resolves to is an
      instance of that class, and the value was a uid or an array (only an array without a
      class schema). */
  lemma TransformAcceptsObjects(value: Mixed, dataType: string, hasClassSchema: bool, env: Environment, resolved: Mixed)
    requires !value.Null? && env.ClassExists(dataType)
    ensures Transform(value, dataType, hasClassSchema, env, resolved).Success?
      <==> env.InstanceOf(resolved, dataType)
           && (value.Arr? || (hasClassSchema && IsNumeric(value)))
  {
    assert !env.InstanceOf(Null, dataType);
  }

  class Argument {
    /** The reflection oracle the argument consults. */
    const env: Environment

    /** The name never changes after construction. */
    const name: string
    var shortName: Option<string>
    var dataType: string
    var hasClassSchema: bool
    var isRequired: bool
    var value: Mixed
    var defaultValue: Mixed
    var validator: Option<Validator>
    var validationDisabled: bool

    /** What every argument keeps: a non-empty name, and a short name of one byte when
        it has one. */
    predicate Valid()
      reads this
    {
      |name| >= 1 && (shortName.Some? ==> StrLen(shortName.value) == 1)
    }

    function Fields(): ArgumentFields
      reads this
    {
      ArgumentFields(name, shortName, dataType, hasClassSchema, isRequired, value, defaultValue, validator, validationDisabled)
    }

    /** A new argument with the given name and data type; not required, without a value,
        a default value, a short name or a validator, and with validation enabled. */
    constructor(name: string, dataType: string, env: Environment)
      requires |name| >= 1
      ensures Valid() && this.env == env
      ensures Fields() == ArgumentFields(name, None, dataType, env.HasClassSchema(dataType), false, Null, Null, None, false)
    {
      this.env := env;
      this.name := name;
      this.shortName := None;
      this.dataType := dataType;
      this.hasClassSchema := env.HasClassSchema(dataType);
      this.isRequired := false;
      this.value := Null;
      this.defaultValue := Null;
      this.validator := None;
      this.validationDisabled := false;
    }

    /** Sets the data type and looks up its class schema. */
    method SetDataType(dataType: string)
      modifies this
      ensures Fields() == old(Fields()).(dataType := dataType, hasClassSchema := env.HasClassSchema(dataType))
    {
      this.dataType := dataType;
      this.hasClassSchema := env.HasClassSchema(dataType);
    }

    /** Sets the short name: NULL or a string of one byte, which is a single ASCII
        character; anything else, a multi-byte character included, is refused and leaves
        the argument as it was. */
    method SetShortName(shortName: Mixed) returns (r: Outcome<Exception>)
      requires Valid()
      modifies this
      ensures Valid()
      ensures r.Pass? <==> shortName.Null? || (shortName.Str? && |shortName.s| == 1 && (shortName.s[0] as int) < 0x80)
      ensures r.Fail? ==> r.error == InvalidArgument(InvalidShortNameCode) && Fields() == old(Fields())
      ensures r.Pass? ==> Fields() == old(Fields()).(shortName := if shortName.Null? then None else Some(shortName.s))
    {
      if shortName.Str? {
        StrLenBounds(shortName.s);
      }
      if !shortName.Null? && (!shortName.Str? || StrLen(shortName.s) != 1) {
        return Fail(InvalidArgument(InvalidShortNameCode));
      }
      this.shortName := if shortName.Null? then None else Some(shortName.s);
      return Pass;
    }

    function IsRequired(): bool
      reads this
    {
      isRequired
    }

    /** Marks the argument required by the boolean cast of `required`. */
    method SetRequired(required: Mixed)
      modifies this
      ensures IsRequired() == Truthy(required)
      ensures Fields() == old(Fields()).(isRequired := Truthy(required))
    {
      isRequired := Truthy(required);
    }

    function GetDefaultValue(): Mixed
      reads this
    {
      defaultValue
    }

    /** Sets the default value; reading it back gives the same value. */
    method SetDefaultValue(defaultValue: Mixed)
      modifies this
      ensures GetDefaultValue() == defaultValue
      ensures Fields() == old(Fields()).(defaultValue := defaultValue)
    {
      this.defaultValue := defaultValue;
    }

    /** Sets a validator, replacing the one the argument had. */
    method SetValidator(v: Validator)
      modifies this`validator
      ensures Fields() == old(Fields()).(validator := Some(v))
    {
      validator := Some(v);
    }

    /** Chains one validator per name into the argument's validator, in order, creating an
        empty conjunction first when the argument has none; a validator already set is
        kept and extended. */
    method SetNewValidatorConjunction(objectNames: seq<string>)
      modifies this
      ensures validator.Some?
      ensures old(validator).Some? ==> validator.value.className == old(validator).value.className
      ensures old(validator).None? ==> validator.value.className == ConjunctionValidatorClass
      ensures var before := if old(validator).Some? then old(validator).value.chained else [];
        validator.value.chained == before + ValidatorClassNames(objectNames, env)
      ensures Fields() == old(Fields()).(validator := validator)
    {
      var conjunction := if validator.Some? then validator.value else Validator(ConjunctionValidatorClass, []);
      var chained := conjunction.chained;
      var i := 0;
      while i < |objectNames|
        invariant 0 <= i <= |objectNames|
        invariant chained == conjunction.chained + ValidatorClassNames(objectNames[..i], env)
        modifies {}
        decreases |objectNames| - i
      {
        var objectName := objectNames[i];
        if !env.ClassExists(objectName) {
          objectName := ValidatorPrefix + objectName;
        }
        ValidatorClassNamesAppend(objectNames[..i], [objectNames[i]], env);
        assert objectNames[..i + 1] == objectNames[..i] + [objectNames[i]];
        AppendAssoc(conjunction.chained, ValidatorClassNames(objectNames[..i], env), [objectName]);
        chained := chained + [objectName];
        i := i + 1;
      }
      assert objectNames[..|objectNames|] == objectNames;
      validator := Some(conjunction.(chained := chained));
    }

    function IsValidationDisabled(): bool
      reads this
    {
      validationDisabled
    }

    /** Enables validation; nothing else changes. */
    method EnableValidation()
      modifies this
      ensures !IsValidationDisabled()
      ensures Fields() == old(Fields()).(validationDisabled := false)
    {
      validationDisabled := false;
    }

    /** Disables validation; nothing else changes. */
    method DisableValidation()
      modifies this
      ensures IsValidationDisabled()
      ensures Fields() == old(Fields()).(validationDisabled := true)
    {
      validationDisabled := true;
    }

    /** Whether a value was set. */
    function IsValue(): bool
      reads this
    {
      !value.Null?
    }

    /** The value, or the default value when no value was set. */
    function GetValue(): (r: Mixed)
      reads this
      ensures IsValue() ==> r == value
      ensures !IsValue() ==> r == defaultValue
    {
      if value.Null? then defaultValue else value
    }

    /** Sets the value to what `value` transforms to; on a refused value the argument
        stays as it was. */
    method SetValue(value: Mixed, resolved: Mixed) returns (r: Outcome<Exception>)
      modifies this
      ensures var t := Transform(value, old(dataType), old(hasClassSchema), env, resolved);
        (t.Success? ==> r.Pass? && Fields() == old(Fields()).(value := t.value))
        && (t.Failure? ==> r == Fail(t.error) && Fields() == old(Fields()))
      ensures r.Pass? && value.Null? ==> !IsValue() && GetValue() == GetDefaultValue()
      ensures r.Pass? && !value.Null? ==> IsValue()
    {
      var t := TransformValue(value, resolved);
      if t.Failure? {
        return Fail(t.error);
      }
      this.value := t.value;
      if !value.Null? && !env.ClassExists(dataType) {
        assert IsValue();
      }
      return Pass;
    }

    /** The transformation of a value for this argument's data type. */
    method TransformValue(value: Mixed, resolved: Mixed) returns (r: Result<Mixed, Exception>)
      ensures r == Transform(value, dataType, hasClassSchema, env, resolved)
    {
      if value.Null? {
        return Success(Null);
      }
      if !env.ClassExists(dataType) {
        return Success(value);
      }
      var transformed := Null;
      if hasClassSchema {
        if IsNumeric(value) {
          transformed := resolved;
        } else if value.Arr? {
          transformed := resolved;
        }
      } else {
        if !value.Arr? {
          return Failure(InvalidArgumentValue(InvalidValueCode));
        }
        transformed := resolved;
      }
      if !env.InstanceOf(transformed, dataType) {
        return Failure(InvalidArgumentValue(InvalidValueCode));
      }
      return Success(transformed);
    }
  }

  /** Constructing an argument: the name must be a non-empty string; the data type
      defaults to `Text`. */
  method NewArgument(name: Mixed, dataType: Option<string>, env: Environment) returns (r: Result<Argument, Exception>)
    ensures r.Failure? <==> !(name.Str? && |name.s| >= 1)
    ensures r.Failure? ==> r.error == InvalidArgument(InvalidNameCode)
    ensures r.Success? ==> fresh(r.value) && r.value.Valid() && r.value.env == env
    ensures r.Success? ==>
      var t := if dataType.Some? then dataType.value else DefaultDataType;
      r.value.Fields() == ArgumentFields(name.s, None, t, env.HasClassSchema(t), false, Null, Null, None, false)
  {
    if name.Str? {
      StrLenBounds(name.s);
    }
    if !name.Str? || StrLen(name.s) < 1 {
      return Failure(InvalidArgument(InvalidNameCode));
    }
    var a := new Argument(name.s, if dataType.Some? then dataType.value else DefaultDataType, env);
    return Success(a);
  }
}
