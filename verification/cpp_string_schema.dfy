/** CppStringSchema: the string-specific parts of schema conversion (hard-coded
 *  enumerations, the length clauses, the literal of a default value, and the
 *  checks made before an enumeration header is generated). */
module CppStringSchema {
  import opened Errors
  import opened JsonModel
  import opened Extenders
  import opened CodeBuilder
  import opened ICppSchema

  /** Without an explicit typename a string schema is a std::string, and the
   *  empty string is its trivial value. */
  const TrivialTypename: string := "std::string"
  const TrivialDefaultConditionFormat: string := "{0}.empty()"

  /** ParseOverride: no value and null both give the empty string literal; a
   *  JSON string keeps its raw text, quotes included; any other value is a
   *  FormatException. */
  function ParseOverride(value: JsonValue): (r: Result<string>)
    ensures value.Undefined? || value.JsonNull? ==> r == Ok("\"\"")
    ensures value.JsonString? ==> r == Ok(value.raw)
    ensures r.Err? <==> !(value.Undefined? || value.JsonNull? || value.JsonString?)
    ensures r.Err? ==> r.failure == FormatError
  {
    match value
    case Undefined => Ok("\"\"")
    case JsonNull => Ok("\"\"")
    case JsonString(raw) => Ok(raw)
    case _ => Err(FormatError)
  }

  /** The length clauses: at most one for minLength, then at most one for maxLength. */
  function MoreValidationFormat(schema: JsonSchema, message: string): (r: seq<CodeLine>)
    ensures |r| == (if schema.minLength.Some? then 1 else 0) + (if schema.maxLength.Some? then 1 else 0)
    ensures schema.minLength.Some? ==> r[0] == BoundClause("<", schema.minLength.value, message)
    ensures schema.maxLength.Some? ==> r[|r| - 1] == BoundClause(">", schema.maxLength.value, message)
  {
    (if schema.minLength.Some? then [BoundClause("<", schema.minLength.value, message)] else [])
    + (if schema.maxLength.Some? then [BoundClause(">", schema.maxLength.value, message)] else [])
  }

  /** One permissible value without its quotes: the literal between its first
   *  and last character, trimmed. A null literal, a literal shorter than two
   *  characters, or one with only whitespace inside is a SchemaException. */
  function Unquote(code: Option<string>): Result<string> {
    if code.None? || |code.value| < 2 then Err(SchemaError)
    else
      var inner := TrimNullify(Some(code.value[1..|code.value| - 1]));
      if inner.None? then Err(SchemaError) else Ok(inner.value)
  }

  /** An unquoted value is non-empty, has no whitespace at either end, and is
   *  the part of the literal's inside left after removing the whitespace at its
   *  start; it fails exactly when the inside is all whitespace. */
  lemma UnquoteSpec(code: string)
    ensures |code| < 2 ==> Unquote(Some(code)).Err?
    ensures |code| >= 2 ==> var inner := code[1..|code| - 1];
      Unquote(Some(code)).Err? <==> AllWhiteSpace(inner)
    ensures |code| >= 2 ==> var inner := code[1..|code| - 1];
      var k := |inner| - |TrimStart(inner)|;
      Unquote(Some(code)).Ok? ==>
        var t := Unquote(Some(code)).value;
        |t| > 0 && !IsWhiteSpace(t[0]) && !IsWhiteSpace(t[|t| - 1])
        && k + |t| <= |inner| && t == inner[k..k + |t|]
  {
    if |code| >= 2 {
      var inner := code[1..|code| - 1];
      var t := Trim(inner);
      assert Unquote(Some(code)) == if t == [] then Err(SchemaError) else Ok(t);
      TrimSpec(inner);
    }
  }

  /** The constructor's loop over the permissible value codes. */
  method UnquotePermissibleValues(codes: seq<Option<string>>) returns (r: Result<seq<string>>)
    ensures r.Ok? <==> forall k :: 0 <= k < |codes| ==> Unquote(codes[k]).Ok?
    ensures r.Ok? ==> |r.value| == |codes|
    ensures r.Ok? ==> forall k :: 0 <= k < |codes| ==> r.value[k] == Unquote(codes[k]).value
    ensures r.Err? ==> r.failure == SchemaError
  {
    var values: seq<string> := [];
    var k := 0;
    while k < |codes|
      invariant 0 <= k <= |codes| && |values| == k
      invariant forall j :: 0 <= j < k ==> Unquote(codes[j]).Ok? && values[j] == Unquote(codes[j]).value
    {
      var item := Unquote(codes[k]);
      if item.Err? {
        return Err(SchemaError);
      }
      values := values + [item.value];
      k := k + 1;
    }
    r := Ok(values);
  }

  /** The string constructor after the common conversion `base`: includes and
   *  inherits are refused; hard-coding enumerations needs at least one
   *  permissible value and makes the type passed by value, eligible for code
   *  generation and free of validation, with every value unquoted. */
  method Construct(schema: JsonSchema, base: CppSchema) returns (r: Result<CppSchema>)
    ensures schema.hppIncludes.Some? || schema.hppInherits.Some? ==> r == Err(SchemaError)
    ensures schema.hppIncludes.None? && schema.hppInherits.None? && !schema.hppDoHardcodeEnums ==>
      r == Ok(base.(details := StringDetails(None)))
    ensures schema.hppDoHardcodeEnums && |base.permissibleValueCodes| == 0 ==> r == Err(SchemaError)
    ensures r.Err? ==> r.failure == SchemaError
    ensures r.Ok? && schema.hppDoHardcodeEnums ==>
      r.value.details.StringDetails? && r.value.details.unquotedPermissibleValues.Some?
    ensures r.Ok? && schema.hppDoHardcodeEnums ==>
      var values := r.value.UnquotedValues();
      && r.value == base.(doPassByValue := true, doesSupportCodeGeneration := true,
          doesRequireValidationOverride := Some(false), details := StringDetails(Some(values)))
      && |values| == |base.permissibleValueCodes| > 0
      && (forall k :: 0 <= k < |values| ==>
        Unquote(base.permissibleValueCodes[k]).Ok? && values[k] == Unquote(base.permissibleValueCodes[k]).value)
    ensures schema.hppIncludes.None? && schema.hppInherits.None? && schema.hppDoHardcodeEnums ==>
      (r.Ok? <==> (|base.permissibleValueCodes| > 0
        && forall k :: 0 <= k < |base.permissibleValueCodes| ==> Unquote(base.permissibleValueCodes[k]).Ok?))
  {
    if schema.hppIncludes.Some? || schema.hppInherits.Some? {
      return Err(SchemaError);
    }
    if !schema.hppDoHardcodeEnums {
      return Ok(base.(details := StringDetails(None)));
    }
    if |base.permissibleValueCodes| == 0 {
      return Err(SchemaError);
    }
    var values := UnquotePermissibleValues(base.permissibleValueCodes);
    if values.Err? {
      return Err(values.failure);
    }
    r := Ok(base.(doPassByValue := true, doesSupportCodeGeneration := true,
      doesRequireValidationOverride := Some(false), details := StringDetails(Some(values.value))));
  }

  /** Whether a value would be named like one of the reserved typedefs. */
  predicate IsReserved(value: string, reservedNames: seq<string>) {
    SnakeCase(value) in reservedNames
  }

  /** InvalidateOverride: an enumeration needs a namespace, and no value may
   *  take the snake-case name of a reserved typedef; it adds no warnings. */
  method InvalidateOverride(x: CppSchema, reservedNames: seq<string>) returns (r: Result<seq<string>>)
    ensures r.Ok? <==> (x.namespace.Some?
      && forall k :: 0 <= k < |x.UnquotedValues()| ==> !IsReserved(x.UnquotedValues()[k], reservedNames))
    ensures r.Ok? ==> r.value == []
    ensures r.Err? ==> r.failure == SchemaError
  {
    if x.namespace.None? {
      return Err(SchemaError);
    }
    var values := x.UnquotedValues();
    var k := 0;
    while k < |values|
      invariant 0 <= k <= |values|
      invariant forall j :: 0 <= j < k ==> !IsReserved(values[j], reservedNames)
    {
      if IsReserved(values[k], reservedNames) {
        return Err(SchemaError);
      }
      k := k + 1;
    }
    r := Ok([]);
  }
}
