/** CppSchemaBase: converting a JSON schema node into its C++ description
 *  (JsonSchema.ToCppType and the constructors of the schema classes), the
 *  virtual members that differ by kind, and the Invalidate check used before
 *  an enumeration header is generated. */
module CppSchemaBase {
  import opened Errors
  import opened JsonModel
  import opened Extenders
  import opened CodeBuilder
  import opened ICppSchema
  import CppArraySchema
  import CppStringSchema
  import CppObjectSchema

  // ---------------------------------------------------------------------------
  // The primitive schema classes
  // ---------------------------------------------------------------------------

  /** What a primitive schema class (CppNullSchema, CppBooleanSchema,
   *  CppIntegerSchema, CppNumberSchema) contributes: its default typename and
   *  condition format, whether it is passed by value, how it parses a default
   *  value, and any validation clauses of its own. */
  datatype PrimitiveClass = PrimitiveClass(
    trivialTypename: Option<string>,
    trivialDefaultConditionFormat: Option<string>,
    doPassByValue: bool,
    parseOverride: JsonValue -> Result<string>,
    moreValidationFormat: (JsonSchema, string) -> seq<CodeLine>)

  datatype Primitives = Primitives(
    nullSchema: PrimitiveClass,
    booleanSchema: PrimitiveClass,
    integerSchema: PrimitiveClass,
    numberSchema: PrimitiveClass)

  predicate IsPrimitive(kind: SchemaKind) {
    kind == NullKind || kind == BooleanKind || kind == IntegerKind || kind == NumberKind
  }

  function ClassOf(prims: Primitives, kind: SchemaKind): PrimitiveClass
    requires IsPrimitive(kind)
  {
    match kind
    case NullKind => prims.nullSchema
    case BooleanKind => prims.booleanSchema
    case IntegerKind => prims.integerSchema
    case NumberKind => prims.numberSchema
  }

  /** The item kind an array schema has before ValidateJsonSchema sets it: the
   *  permissible values of an array are parsed with it. */
  const DefaultItemsKind: SchemaKind := NullKind

  // ---------------------------------------------------------------------------
  // Virtual members
  // ---------------------------------------------------------------------------

  function TrivialTypename(kind: SchemaKind, prims: Primitives): Option<string> {
    if IsPrimitive(kind) then ClassOf(prims, kind).trivialTypename
    else if kind == StringKind then Some(CppStringSchema.TrivialTypename)
    else None
  }

  function TrivialDefaultConditionFormat(kind: SchemaKind, prims: Primitives): Option<string> {
    if IsPrimitive(kind) then ClassOf(prims, kind).trivialDefaultConditionFormat
    else if kind == StringKind then Some(CppStringSchema.TrivialDefaultConditionFormat)
    else if kind == ArrayKind then Some(CppArraySchema.TrivialDefaultConditionFormat)
    else None
  }

  function ParseOverride(kind: SchemaKind, itemsKind: SchemaKind, prims: Primitives, value: JsonValue): Result<string> {
    if IsPrimitive(kind) then ClassOf(prims, kind).parseOverride(value)
    else if kind == StringKind then CppStringSchema.ParseOverride(value)
    else if kind == ArrayKind then CppArraySchema.ParseOverride(itemsKind, value)
    else CppObjectSchema.ParseOverride(value)
  }

  /** A non-empty string with no whitespace at either end. */
  predicate Trimmed(s: string) {
    |s| > 0 && !IsWhiteSpace(s[0]) && !IsWhiteSpace(s[|s| - 1])
  }

  lemma TrimNullifyTrimmed(x: Option<string>)
    ensures TrimNullify(x).Some? ==> Trimmed(TrimNullify(x).value)
  {
    TrimNullifySpec(x);
  }

  /** Parse: the kind's literal, trimmed, with an empty literal becoming null. */
  function Parse(kind: SchemaKind, itemsKind: SchemaKind, prims: Primitives, value: JsonValue): (r: Result<Option<string>>)
    ensures r.Err? <==> ParseOverride(kind, itemsKind, prims, value).Err?
    ensures r.Ok? && r.value.Some? ==> Trimmed(r.value.value)
  {
    var text := ParseOverride(kind, itemsKind, prims, value);
    TrimNullifyTrimmed(if text.Ok? then Some(text.value) else None);
    if text.Err? then Err(text.failure) else Ok(TrimNullify(Some(text.value)))
  }

  // ---------------------------------------------------------------------------
  // Pieces of the common constructor
  // ---------------------------------------------------------------------------

  /** The typename: the schema's own "hppTypename", else the kind's default. */
  function TypenameOf(s: JsonSchema, kind: SchemaKind, prims: Primitives): (r: Option<string>)
    ensures r.Some? ==> Trimmed(r.value)
    ensures TrimNullify(s.hppTypename).Some? ==> r == TrimNullify(s.hppTypename)
    ensures TrimNullify(s.hppTypename).None? ==> r == TrimNullify(TrivialTypename(kind, prims))
  {
    TrimNullifyTrimmed(s.hppTypename);
    TrimNullifyTrimmed(TrivialTypename(kind, prims));
    var own := TrimNullify(s.hppTypename);
    if own.Some? then own else TrimNullify(TrivialTypename(kind, prims))
  }

  /** The validation message: "hppValidationMessage" or a stock text. */
  function ValidationMessage(s: JsonSchema): string {
    var own := TrimNullify(s.hppValidationMessage);
    if own.Some? then own.value else "Validation failed."
  }

  /** The clause for one "hppInvalidFormats" condition. */
  function InvalidClause(condition: string, message: string): CodeLine {
    CodeLine("if (" + condition + ") return \"" + message + "\";", 0)
  }

  /** The test for one permissible value; a null code is written as nothing. */
  function MembershipTest(code: Option<string>): string {
    "({0} == " + (if code.Some? then code.value else "") + ")"
  }

  /** The clause of a hard-coded enumeration: the value must equal one of the codes. */
  function EnumClauseOf(tests: seq<string>, message: string): CodeLine {
    CodeLine("if (!(" + Join(" || ", tests) + ")) return \"" + message + "\";", 0)
  }

  /** The constructor's loop over the permissible values. */
  method ParsePermissibleValues(kind: SchemaKind, prims: Primitives, values: seq<JsonValue>)
    returns (r: Result<seq<Option<string>>>)
    ensures r.Ok? <==> forall k :: 0 <= k < |values| ==> Parse(kind, DefaultItemsKind, prims, values[k]).Ok?
    ensures r.Ok? ==> |r.value| == |values|
    ensures r.Ok? ==> forall k :: 0 <= k < |values| ==> Parse(kind, DefaultItemsKind, prims, values[k]) == Ok(r.value[k])
    ensures r.Err? ==> exists k :: 0 <= k < |values| && Parse(kind, DefaultItemsKind, prims, values[k]) == Err(r.failure)
  {
    var codes: seq<Option<string>> := [];
    var k := 0;
    while k < |values|
      invariant 0 <= k <= |values| && |codes| == k
      invariant forall j :: 0 <= j < k ==> Parse(kind, DefaultItemsKind, prims, values[j]) == Ok(codes[j])
    {
      var code := Parse(kind, DefaultItemsKind, prims, values[k]);
      if code.Err? {
        return Err(code.failure);
      }
      codes := codes + [code.value];
      k := k + 1;
    }
    r := Ok(codes);
  }

  /** The constructor's loop over "hppIncludes": each one trimmed, and an
   *  empty header is a SchemaException. */
  method TrimIncludes(xs: seq<HppInclude>) returns (r: Result<seq<HppInclude>>)
    ensures r.Ok? <==> forall k :: 0 <= k < |xs| ==> TrimmedInclude(xs[k]).header.Some?
    ensures r.Ok? ==> |r.value| == |xs|
    ensures r.Ok? ==> forall k :: 0 <= k < |xs| ==> r.value[k] == TrimmedInclude(xs[k])
    ensures r.Err? ==> r.failure == SchemaError
  {
    var includes: seq<HppInclude> := [];
    var k := 0;
    while k < |xs|
      invariant 0 <= k <= |xs| && |includes| == k
      invariant forall j :: 0 <= j < k ==> TrimmedInclude(xs[j]).header.Some? && includes[j] == TrimmedInclude(xs[j])
    {
      var item := TrimmedInclude(xs[k]);
      if item.header.None? {
        return Err(SchemaError);
      }
      includes := includes + [item];
      k := k + 1;
    }
    r := Ok(includes);
  }

  /** One "hppExtensions" entry: trimmed, a null one becoming empty. */
  function ExtensionText(x: Option<string>): string {
    if x.None? then "" else Trim(x.value)
  }

  /** The constructor's loop over "hppExtensions". */
  method TrimExtensions(xs: seq<Option<string>>) returns (r: seq<string>)
    ensures |r| == |xs|
    ensures forall k :: 0 <= k < |xs| ==> r[k] == ExtensionText(xs[k])
  {
    r := [];
    var k := 0;
    while k < |xs|
      invariant 0 <= k <= |xs| && |r| == k
      invariant forall j :: 0 <= j < k ==> r[j] == ExtensionText(xs[j])
    {
      r := r + [ExtensionText(xs[k])];
      k := k + 1;
    }
  }

  /** The "hppInvalidFormats" of a schema (none when absent). */
  function Conditions(s: JsonSchema): seq<Option<string>> {
    if s.hppInvalidFormats.Some? then s.hppInvalidFormats.value else []
  }

  /** No condition is empty. */
  predicate ConditionsPresent(conditions: seq<Option<string>>) {
    forall k :: 0 <= k < |conditions| ==> TrimNullify(conditions[k]).Some?
  }

  /** One clause per condition, in order. */
  function InvalidClauses(conditions: seq<Option<string>>, message: string): (r: seq<CodeLine>)
    requires ConditionsPresent(conditions)
    ensures |r| == |conditions|
  {
    seq(|conditions|, k requires 0 <= k < |conditions| => InvalidClause(TrimNullify(conditions[k]).value, message))
  }

  /** The constructor's loop over "hppInvalidFormats": one clause per
   *  condition; an empty condition is a SchemaException. */
  method InvalidFormatClauses(conditions: seq<Option<string>>, message: string) returns (r: Result<seq<CodeLine>>)
    ensures r.Ok? <==> ConditionsPresent(conditions)
    ensures r.Ok? ==> r.value == InvalidClauses(conditions, message)
    ensures r.Err? ==> r.failure == SchemaError
  {
    var clauses: seq<CodeLine> := [];
    var k := 0;
    while k < |conditions|
      invariant 0 <= k <= |conditions| && |clauses| == k
      invariant forall j :: 0 <= j < k ==>
        TrimNullify(conditions[j]).Some? && clauses[j] == InvalidClause(TrimNullify(conditions[j]).value, message)
    {
      var condition := TrimNullify(conditions[k]);
      if condition.None? {
        return Err(SchemaError);
      }
      clauses := clauses + [InvalidClause(condition.value, message)];
      k := k + 1;
    }
    r := Ok(clauses);
  }

  /** The membership tests of a hard-coded enumeration, one per code, in order. */
  function EnumTests(codes: seq<Option<string>>): (r: seq<string>)
    ensures |r| == |codes|
  {
    seq(|codes|, k requires 0 <= k < |codes| => MembershipTest(codes[k]))
  }

  /** The constructor's loop building the hard-coded enumeration clause. */
  method EnumClause(codes: seq<Option<string>>, message: string) returns (line: CodeLine)
    ensures line == EnumClauseOf(EnumTests(codes), message)
  {
    var clauses: seq<string> := [];
    var k := 0;
    while k < |codes|
      invariant 0 <= k <= |codes| && |clauses| == k
      invariant forall j :: 0 <= j < k ==> clauses[j] == MembershipTest(codes[j])
    {
      clauses := clauses + [MembershipTest(codes[k])];
      k := k + 1;
    }
    assert clauses == EnumTests(codes);
    line := EnumClauseOf(clauses, message);
  }

  // ---------------------------------------------------------------------------
  // What every converted schema satisfies
  // ---------------------------------------------------------------------------

  predicate DetailsMatchKind(x: CppSchema) {
    (x.details.ArrayDetails? <==> x.kind == ArrayKind)
    && (x.details.StringDetails? <==> x.kind == StringKind)
    && (x.details.ObjectDetails? <==> x.kind == ObjectKind)
  }

  /** Some property requires validation. */
  predicate AnyRequiresValidation(properties: seq<CppSchema>) {
    exists k :: 0 <= k < |properties| && properties[k].DoesRequireValidation()
  }

  /** An object's properties: named, required ones first and counted, and the
   *  object requires validation exactly when one of them does. */
  predicate ObjectShape(x: CppSchema) {
    x.details.ObjectDetails?
    && x.details.countRequired + x.details.countOptional == |x.details.properties|
    && (forall k :: 0 <= k < |x.details.properties| ==>
          (x.details.properties[k].isPropertyRequired <==> k < x.details.countRequired))
    && (forall k :: 0 <= k < |x.details.properties| ==> x.details.properties[k].propertyName.Some?)
    && x.doesRequireValidationOverride == Some(AnyRequiresValidation(x.details.properties))
    && (forall k :: 0 <= k < |x.details.objectDefinitions| ==> x.details.objectDefinitions[k].kind == ObjectKind)
  }

  /** A string schema that supports code generation has hard-coded enumeration
   *  values, as many as its codes, each trimmed and non-empty. */
  predicate StringShape(x: CppSchema) {
    x.details.StringDetails?
    && (x.doesSupportCodeGeneration ==>
      x.details.unquotedPermissibleValues.Some?
      && |x.details.unquotedPermissibleValues.value| == |x.permissibleValueCodes| > 0
      && x.doPassByValue
      && x.doesRequireValidationOverride == Some(false))
  }

  /** The invariant of conversion, which every converted node keeps: a trimmed typename that is
   *  not qualified twice, headers on every include, a condition format only
   *  for a trivial default, and the kind's own shape. */
  predicate NodeValid(x: CppSchema) {
    Trimmed(x.typename)
    && !(Contains(x.typename, "::") && x.namespace.Some?)
    && (x.namespace.Some? ==> Trimmed(x.namespace.value))
    && (x.propertyName.Some? ==> Trimmed(x.propertyName.value))
    && (forall k :: 0 <= k < |x.includes| ==> x.includes[k].header.Some?)
    && (x.defaultConditionFormat.Some? ==> x.isDefaultValueTrivial)
    && DetailsMatchKind(x)
    && (x.kind == ObjectKind ==> ObjectShape(x))
    && (x.kind == StringKind ==> StringShape(x))
    && (x.kind != StringKind ==> !x.doesSupportCodeGeneration)
  }

  // ---------------------------------------------------------------------------
  // Conversion
  // ---------------------------------------------------------------------------

  /** The entries of "definitions" the common constructor converts: present,
   *  with a typename, and not ignored. */
  function DefinitionSchemas(entries: seq<Entry>): seq<JsonSchema> {
    if entries == [] then []
    else
      var last := entries[|entries| - 1];
      DefinitionSchemas(entries[..|entries| - 1])
      + (if last.value.Some? && last.value.value.hppTypename.Some? && !last.value.value.ignore
         then [last.value.value] else [])
  }

  /** The entries of "definitions" the object constructor converts: present and
   *  with a typename, ignored or not. */
  function ObjectDefinitionSchemas(entries: seq<Entry>): seq<JsonSchema> {
    if entries == [] then []
    else
      var last := entries[|entries| - 1];
      ObjectDefinitionSchemas(entries[..|entries| - 1])
      + (if last.value.Some? && last.value.value.hppTypename.Some? then [last.value.value] else [])
  }

  /** One more entry adds its schema when the object constructor converts it. */
  lemma ObjectDefinitionsStep(entries: seq<Entry>, k: nat)
    requires k < |entries|
    ensures ObjectDefinitionSchemas(entries[..k + 1]) == ObjectDefinitionSchemas(entries[..k])
      + (if entries[k].value.Some? && entries[k].value.value.hppTypename.Some? then [entries[k].value.value] else [])
  {
    assert entries[..k + 1][..k] == entries[..k];
  }

  /** One more entry adds its schema when the common constructor converts it. */
  lemma DefinitionsStep(entries: seq<Entry>, k: nat)
    requires k < |entries|
    ensures DefinitionSchemas(entries[..k + 1]) == DefinitionSchemas(entries[..k])
      + (if entries[k].value.Some? && entries[k].value.value.hppTypename.Some? && !entries[k].value.value.ignore
         then [entries[k].value.value] else [])
  {
    assert entries[..k + 1][..k] == entries[..k];
  }

  /** JsonSchema.ToCppType: the schema class chosen by the declared kind; a
   *  schema without a kind is not implemented. */
  method ToCppType(s: JsonSchema, prims: Primitives) returns (r: Result<CppSchema>)
    ensures s.schemaKind.None? ==> r == Err(NotImplemented)
    ensures s.schemaKind.Some? && s.ignore ==> r == Err(SchemaError)
    ensures r.Ok? ==> s.schemaKind == Some(r.value.kind) && NodeValid(r.value)
    ensures r.Ok? ==> !r.value.isPropertyRequired && r.value.propertyName == TrimNullify(s.propertyName)
    decreases s, 4
  {
    if s.schemaKind.None? {
      return Err(NotImplemented);
    }
    var kind := s.schemaKind.value;
    if kind == ObjectKind {
      r := NewObjectSchema(s, prims);
    } else if kind == StringKind {
      var common := Construct(s, kind, prims);
      if common.Err? {
        return common;
      }
      r := CppStringSchema.Construct(s, common.value);
      if r.Ok? {
        StringNodeValid(common.value, r.value);
      }
    } else {
      r := Construct(s, kind, prims);
    }
  }

  /** The string constructor keeps the invariant of conversion. */
  lemma StringNodeValid(base: CppSchema, x: CppSchema)
    requires NodeValid(base) && base.kind == StringKind && !base.doesSupportCodeGeneration
    requires x == base.(details := StringDetails(None))
      || (x.details.StringDetails? && x.details.unquotedPermissibleValues.Some?
          && |x.UnquotedValues()| == |base.permissibleValueCodes| > 0
          && x == base.(doPassByValue := true, doesSupportCodeGeneration := true,
               doesRequireValidationOverride := Some(false), details := x.details))
    ensures NodeValid(x) && x.kind == StringKind
    ensures x.propertyName == base.propertyName && x.isPropertyRequired == base.isPropertyRequired
  {
    assert NodeValid(x);
  }

  /** The CppObjectSchema constructor: the common part, then the template
   *  parameters, base classes, properties and nested object definitions. */
  method NewObjectSchema(s: JsonSchema, prims: Primitives) returns (r: Result<CppSchema>)
    ensures s.schemaKind != Some(ObjectKind) || s.ignore ==> r == Err(SchemaError)
    ensures r.Ok? ==> r.value.kind == ObjectKind && NodeValid(r.value)
    ensures r.Ok? ==> !r.value.isPropertyRequired && r.value.propertyName == TrimNullify(s.propertyName)
    ensures r.Ok? ==> |r.value.Properties()| == |s.properties|
    ensures r.Ok? ==> |r.value.Templates()| == |TemplateList(s)|
    ensures r.Ok? ==> forall k :: 0 <= k < |TemplateList(s)| ==> r.value.Templates()[k] == TrimmedTemplate(TemplateList(s)[k])
    ensures r.Ok? ==> |r.value.Inherits()| == |InheritList(s)|
    ensures r.Ok? ==> forall k :: 0 <= k < |InheritList(s)| ==>
      r.value.Inherits()[k] == CppObjectSchema.TrimmedInheritEntry(InheritList(s)[k])
    ensures r.Ok? ==> ObjectConversion(s, prims, r.value)
    decreases s, 3
  {
    var common := Construct(s, ObjectKind, prims);
    if common.Err? {
      return common;
    }
    var parts := ConvertObjectParts(s, prims);
    if parts.Err? {
      return Err(parts.failure);
    }
    var p := parts.value;
    ObjectNodeValid(common.value, p.templates, p.inherits, p.list, p.definitions);
    var x := common.value.(
      doesRequireValidationOverride := Some(p.list.requiresValidation),
      details := ObjectDetails(p.templates, p.inherits, p.list.properties,
        p.list.countRequired, p.list.countOptional, p.definitions));
    ObjectConverted(s, prims, common.value, p, x);
    r := Ok(x);
  }

  /** The node the object constructor assembles from the common part and the
   *  converted parts is the object conversion of the schema. */
  lemma ObjectConverted(s: JsonSchema, prims: Primitives, base: CppSchema, p: ObjectParts, x: CppSchema)
    requires s.schemaKind == Some(ObjectKind) && !s.ignore
    requires CommonFields(s, ObjectKind, prims, base) && NodeValid(x)
    requires |p.list.properties| == |s.properties|
    requires |p.templates| == |TemplateList(s)|
    requires forall k :: 0 <= k < |TemplateList(s)| ==> p.templates[k] == TrimmedTemplate(TemplateList(s)[k])
    requires |p.inherits| == |InheritList(s)|
    requires forall k :: 0 <= k < |InheritList(s)| ==>
      p.inherits[k] == CppObjectSchema.TrimmedInheritEntry(InheritList(s)[k])
    requires x == base.(
      doesRequireValidationOverride := Some(p.list.requiresValidation),
      details := ObjectDetails(p.templates, p.inherits, p.list.properties,
        p.list.countRequired, p.list.countOptional, p.definitions))
    ensures ObjectConversion(s, prims, x)
  {
    assert DefaultsIn(x) == DefaultsIn(base);
  }

  /** The "hppTemplates" and "hppInherits" of a schema (none when absent). */
  function TemplateList(s: JsonSchema): seq<HppTemplate> {
    if s.hppTemplates.Some? then s.hppTemplates.value else []
  }

  function InheritList(s: JsonSchema): seq<Option<HppInherit>> {
    if s.hppInherits.Some? then s.hppInherits.value else []
  }

  /** What the object constructor adds to the common part. */
  datatype ObjectParts = ObjectParts(
    templates: seq<HppTemplate>, inherits: seq<Option<HppInherit>>, list: PropertyList, definitions: seq<CppSchema>)

  /** The object constructor's own steps, in order. */
  method ConvertObjectParts(s: JsonSchema, prims: Primitives) returns (r: Result<ObjectParts>)
    ensures r.Ok? ==> PropertiesShape(r.value.list) && |r.value.list.properties| == |s.properties|
    ensures r.Ok? ==> forall k :: 0 <= k < |r.value.definitions| ==>
      r.value.definitions[k].kind == ObjectKind && NodeValid(r.value.definitions[k])
    ensures r.Ok? ==> |r.value.templates| == |TemplateList(s)|
    ensures r.Ok? ==> forall k :: 0 <= k < |TemplateList(s)| ==> r.value.templates[k] == TrimmedTemplate(TemplateList(s)[k])
    ensures r.Ok? ==> |r.value.inherits| == |InheritList(s)|
    ensures r.Ok? ==> forall k :: 0 <= k < |InheritList(s)| ==>
      r.value.inherits[k] == CppObjectSchema.TrimmedInheritEntry(InheritList(s)[k])
    decreases s, 2
  {
    var templates := CppObjectSchema.TrimTemplates(TemplateList(s));
    var inherits := CppObjectSchema.TrimInherits(InheritList(s));
    var converted, items := ConvertProperties(s, prims);
    if converted.Err? {
      return Err(converted.failure);
    }
    FoldShape(items, converted.value);
    var definitions := ConvertObjectDefinitions(s, prims);
    if definitions.Err? {
      return Err(definitions.failure);
    }
    r := Ok(ObjectParts(templates, inherits, converted.value, definitions.value));
  }

  /** The state of the object constructor's loop over the properties. */
  datatype PropertyList = PropertyList(
    properties: seq<CppSchema>, countRequired: nat, countOptional: nat, requiresValidation: bool)

  /** Converted, named properties, the counted required ones first, and the
   *  flag saying whether any of them requires validation. */
  predicate PropertiesShape(list: PropertyList) {
    list.countRequired + list.countOptional == |list.properties|
    && (forall k :: 0 <= k < |list.properties| ==>
          NodeValid(list.properties[k]) && list.properties[k].propertyName.Some?
          && (list.properties[k].isPropertyRequired <==> k < list.countRequired))
    && list.requiresValidation == AnyRequiresValidation(list.properties)
  }

  /** The object constructor's result keeps the invariant of conversion. */
  lemma ObjectNodeValid(base: CppSchema, templates: seq<HppTemplate>, inherits: seq<Option<HppInherit>>,
      list: PropertyList, definitions: seq<CppSchema>)
    requires NodeValid(base) && base.kind == ObjectKind
    requires PropertiesShape(list)
    requires forall k :: 0 <= k < |definitions| ==> definitions[k].kind == ObjectKind && NodeValid(definitions[k])
    ensures NodeValid(base.(
      doesRequireValidationOverride := Some(list.requiresValidation),
      details := ObjectDetails(templates, inherits, list.properties, list.countRequired, list.countOptional, definitions)))
  {
    var x := base.(
      doesRequireValidationOverride := Some(list.requiresValidation),
      details := ObjectDetails(templates, inherits, list.properties, list.countRequired, list.countOptional, definitions));
    assert ObjectShape(x);
    assert NodeValid(x);
  }

  /** The placed properties are the given ones, the required ones first. */
  lemma PlacedOrder(items: seq<CppSchema>)
    ensures |CppObjectSchema.Placed(items)| == |items|
      == |CppObjectSchema.RequiredOf(items)| + |CppObjectSchema.OptionalOf(items)|
    ensures forall k :: 0 <= k < |items| ==>
      CppObjectSchema.Placed(items)[k] in items
      && (CppObjectSchema.Placed(items)[k].isPropertyRequired <==> k < |CppObjectSchema.RequiredOf(items)|)
  {
    CppObjectSchema.SplitCounts(items);
    CppObjectSchema.SplitMembers(items);
    var placed := CppObjectSchema.Placed(items);
    var req := CppObjectSchema.RequiredOf(items);
    var opt := CppObjectSchema.OptionalOf(items);
    forall k | 0 <= k < |placed|
      ensures placed[k] in items
      ensures placed[k].isPropertyRequired <==> k < |req|
    {
      if k < |req| {
        assert placed[k] == req[k] && req[k] in req;
      } else {
        assert placed[k] == opt[k - |req|] && opt[k - |req|] in opt;
      }
    }
  }

  /** Placing the properties keeps whether any of them requires validation. */
  lemma PlacedAny(items: seq<CppSchema>)
    ensures AnyRequiresValidation(CppObjectSchema.Placed(items)) == AnyRequiresValidation(items)
  {
    if AnyRequiresValidation(items) {
      PlacedAnyKept(items);
    }
    if AnyRequiresValidation(CppObjectSchema.Placed(items)) {
      PlacedAnyFrom(items);
    }
  }

  lemma PlacedAnyKept(items: seq<CppSchema>)
    requires AnyRequiresValidation(items)
    ensures AnyRequiresValidation(CppObjectSchema.Placed(items))
  {
    PlacedOrder(items);
    CppObjectSchema.SplitMembers(items);
    var placed := CppObjectSchema.Placed(items);
    var req := CppObjectSchema.RequiredOf(items);
    var opt := CppObjectSchema.OptionalOf(items);
    var k :| 0 <= k < |items| && items[k].DoesRequireValidation();
    var p := items[k];
    assert p in items;
    if p in req {
      var j :| 0 <= j < |req| && req[j] == p;
      assert placed[j] == p;
    } else {
      var j :| 0 <= j < |opt| && opt[j] == p;
      assert placed[|req| + j] == p;
    }
  }

  lemma PlacedAnyFrom(items: seq<CppSchema>)
    requires AnyRequiresValidation(CppObjectSchema.Placed(items))
    ensures AnyRequiresValidation(items)
  {
    PlacedOrder(items);
    var placed := CppObjectSchema.Placed(items);
    var k :| 0 <= k < |placed| && placed[k].DoesRequireValidation();
    assert placed[k] in items;
  }

  /** Placing converted, named properties keeps them converted and named. */
  lemma PlacedProperties(items: seq<CppSchema>)
    requires forall k :: 0 <= k < |items| ==> NodeValid(items[k]) && items[k].propertyName.Some?
    ensures forall k :: 0 <= k < |CppObjectSchema.Placed(items)| ==>
      NodeValid(CppObjectSchema.Placed(items)[k]) && CppObjectSchema.Placed(items)[k].propertyName.Some?
  {
    PlacedOrder(items);
    var placed := CppObjectSchema.Placed(items);
    forall k | 0 <= k < |placed|
      ensures NodeValid(placed[k]) && placed[k].propertyName.Some?
    {
      var j :| 0 <= j < |items| && items[j] == placed[k];
    }
  }

  /** The property list the loop ends with has the shape of an object's properties. */
  lemma PlacedShape(items: seq<CppSchema>, list: PropertyList)
    requires forall k :: 0 <= k < |items| ==> NodeValid(items[k]) && items[k].propertyName.Some?
    requires list == ListOf(items)
    ensures PropertiesShape(list) && |list.properties| == |items|
  {
    PlacedOrder(items);
    PlacedAny(items);
    PlacedProperties(items);
  }

  /** A property marked required keeps the invariant of conversion. */
  lemma MarkRequired(item: CppSchema)
    requires NodeValid(item)
    ensures NodeValid(item.(isPropertyRequired := true))
  {
    assert NodeValid(item.(isPropertyRequired := true));
  }

  lemma AnyStep(items: seq<CppSchema>, item: CppSchema)
    ensures AnyRequiresValidation(items + [item]) == (AnyRequiresValidation(items) || item.DoesRequireValidation())
  {
    var all := items + [item];
    if AnyRequiresValidation(items) {
      var k :| 0 <= k < |items| && items[k].DoesRequireValidation();
      assert all[k] == items[k];
    }
    if item.DoesRequireValidation() {
      assert all[|items|] == item;
    }
    if AnyRequiresValidation(all) {
      var k :| 0 <= k < |all| && all[k].DoesRequireValidation();
      if k < |items| {
        assert items[k] == all[k];
      }
    }
  }

  lemma PlacedStep(items: seq<CppSchema>, item: CppSchema)
    ensures |CppObjectSchema.RequiredOf(items)| <= |CppObjectSchema.Placed(items)|
    ensures CppObjectSchema.Placed(items + [item])
      == CppObjectSchema.Place(CppObjectSchema.Placed(items), |CppObjectSchema.RequiredOf(items)|, item)
    ensures |CppObjectSchema.RequiredOf(items + [item])|
      == |CppObjectSchema.RequiredOf(items)| + (if item.isPropertyRequired then 1 else 0)
    ensures |CppObjectSchema.OptionalOf(items + [item])|
      == |CppObjectSchema.OptionalOf(items)| + (if item.isPropertyRequired then 0 else 1)
  {
    assert (items + [item])[..|items|] == items;
  }

  /** The property list after the loop has placed all of `items`. */
  function ListOf(items: seq<CppSchema>): PropertyList {
    PropertyList(CppObjectSchema.Placed(items), |CppObjectSchema.RequiredOf(items)|,
      |CppObjectSchema.OptionalOf(items)|, AnyRequiresValidation(items))
  }

  /** One step of the loop over the properties: the item placed, counted,
   *  and its need for validation noted. */
  function Push(list: PropertyList, item: CppSchema): PropertyList
    requires list.countRequired <= |list.properties|
  {
    PropertyList(
      CppObjectSchema.Place(list.properties, list.countRequired, item),
      list.countRequired + (if item.isPropertyRequired then 1 else 0),
      list.countOptional + (if item.isPropertyRequired then 0 else 1),
      list.requiresValidation || item.DoesRequireValidation())
  }

  /** The loop's state after placing `items` one at a time. */
  function Fold(items: seq<CppSchema>): (r: PropertyList)
    ensures r.countRequired + r.countOptional == |r.properties| == |items|
  {
    if items == [] then PropertyList([], 0, 0, false)
    else Push(Fold(items[..|items| - 1]), items[|items| - 1])
  }

  /** Placing the items one at a time gives the required ones first, then the
   *  optional ones, and notes whether any of them requires validation. */
  lemma {:induction false} FoldIsListOf(items: seq<CppSchema>)
    ensures Fold(items) == ListOf(items)
  {
    if items != [] {
      var init, x := items[..|items| - 1], items[|items| - 1];
      assert init + [x] == items;
      FoldIsListOf(init);
      FoldStep(init, x);
      PlacedStep(init, x);
      AnyStep(init, x);
    }
  }

  /** The list the loop ends with has the shape of an object's properties. */
  lemma FoldShape(items: seq<CppSchema>, list: PropertyList)
    requires forall k :: 0 <= k < |items| ==> NodeValid(items[k]) && items[k].propertyName.Some?
    requires list == Fold(items)
    ensures PropertiesShape(list) && |list.properties| == |items|
  {
    FoldIsListOf(items);
    assert list == ListOf(items);
    PlacedShape(items, list);
  }

  /** One property of an object: converted, named, and required exactly when
   *  its key is listed in "required". */
  method ConvertProperty(s: JsonSchema, k: nat, required: seq<string>, prims: Primitives) returns (r: Result<CppSchema>)
    requires k < |s.properties|
    ensures s.properties[k].value.None? ==> r == Err(SchemaError)
    ensures r.Ok? ==> NodeValid(r.value) && r.value.propertyName.Some?
    ensures r.Ok? ==> (r.value.isPropertyRequired <==> s.properties[k].key in required)
    decreases s, 0
  {
    var entry := s.properties[k];
    if entry.value.None? {
      return Err(SchemaError);
    }
    assert entry in s.properties;
    var converted := ToCppType(entry.value.value, prims);
    if converted.Err? {
      return converted;
    }
    var item := converted.value;
    if item.propertyName.None? {
      return Err(SchemaError);
    }
    if entry.key in required {
      MarkRequired(item);
      item := item.(isPropertyRequired := true);
    }
    r := Ok(item);
  }

  /** The object constructor's loop over "properties": each converted, named,
   *  marked required when listed in "required", and placed (required ones
   *  first, each group in declared order). A null property or a property
   *  without a name is a SchemaException. */
  method ConvertProperties(s: JsonSchema, prims: Primitives) returns (r: Result<PropertyList>, ghost items: seq<CppSchema>)
    ensures r.Ok? ==> |items| == |s.properties|
    ensures r.Ok? ==> forall k :: 0 <= k < |items| ==>
      NodeValid(items[k]) && items[k].propertyName.Some?
    ensures r.Ok? ==> forall k :: 0 <= k < |items| ==>
      (items[k].isPropertyRequired <==>
          s.requiredPropertyNames.Some? && s.properties[k].key in s.requiredPropertyNames.value)
    ensures r.Ok? ==> r.value == Fold(items)
    ensures (exists k :: 0 <= k < |s.properties| && s.properties[k].value.None?) ==> r.Err?
    decreases s, 1
  {
    var required := if s.requiredPropertyNames.Some? then s.requiredPropertyNames.value else [];
    var list := PropertyList([], 0, 0, false);
    items := [];
    var k := 0;
    while k < |s.properties|
      invariant 0 <= k <= |s.properties| && |items| == k
      invariant Converted(s.properties, required, items)
      invariant list == Fold(items)
    {
      var item := ConvertProperty(s, k, required, prims);
      if item.Err? {
        return Err(item.failure), items;
      }
      ConvertedStep(s.properties, required, items, item.value);
      FoldStep(items, item.value);
      list := Push(list, item.value);
      items := items + [item.value];
      k := k + 1;
    }
    ConvertedAll(s.properties, required, items);
    r := Ok(list);
  }

  /** The loop's invariant over the properties converted so far: each was
   *  present, is converted and named, and is required exactly when listed. */
  ghost predicate Converted(props: seq<Entry>, required: seq<string>, items: seq<CppSchema>) {
    |items| <= |props|
    && forall j :: 0 <= j < |items| ==>
      props[j].value.Some? && NodeValid(items[j]) && items[j].propertyName.Some?
      && (items[j].isPropertyRequired <==> props[j].key in required)
  }

  lemma ConvertedStep(props: seq<Entry>, required: seq<string>, items: seq<CppSchema>, x: CppSchema)
    requires Converted(props, required, items) && |items| < |props|
    requires props[|items|].value.Some? && NodeValid(x) && x.propertyName.Some?
    requires x.isPropertyRequired <==> props[|items|].key in required
    ensures Converted(props, required, items + [x])
  {
  }

  lemma ConvertedAll(props: seq<Entry>, required: seq<string>, items: seq<CppSchema>)
    requires Converted(props, required, items) && |items| == |props|
    ensures forall j :: 0 <= j < |items| ==> NodeValid(items[j]) && items[j].propertyName.Some?
    ensures forall j :: 0 <= j < |items| ==> (items[j].isPropertyRequired <==> props[j].key in required)
    ensures forall j :: 0 <= j < |props| ==> props[j].value.Some?
  {
  }

  lemma FoldStep(items: seq<CppSchema>, x: CppSchema)
    ensures Fold(items + [x]) == Push(Fold(items), x)
  {
    assert (items + [x])[..|items|] == items;
  }

  /** What the object constructor makes of a schema: an object node with the
   *  fields the common constructor sets from it (names, typename, namespace,
   *  includes, extensions, default), one property per declared property, and
   *  its templates and base classes trimmed in order. */
  predicate ObjectConversion(d: JsonSchema, prims: Primitives, x: CppSchema) {
    d.schemaKind == Some(ObjectKind) && !d.ignore
    && CommonFields(d, ObjectKind, prims, x) && NodeValid(x)
    && x.details.ObjectDetails?
    && |x.Properties()| == |d.properties|
    && |x.Templates()| == |TemplateList(d)|
    && (forall k :: 0 <= k < |TemplateList(d)| ==> x.Templates()[k] == TrimmedTemplate(TemplateList(d)[k]))
    && |x.Inherits()| == |InheritList(d)|
    && (forall k :: 0 <= k < |InheritList(d)| ==> x.Inherits()[k] == CppObjectSchema.TrimmedInheritEntry(InheritList(d)[k]))
  }

  /** Each node converts the schema at its own position. */
  predicate ObjectConversions(defs: seq<JsonSchema>, prims: Primitives, xs: seq<CppSchema>) {
    |xs| == |defs| && forall j :: 0 <= j < |xs| ==> ObjectConversion(defs[j], prims, xs[j])
  }

  lemma ObjectConversionsStep(defs: seq<JsonSchema>, prims: Primitives, xs: seq<CppSchema>, d: JsonSchema, x: CppSchema)
    requires ObjectConversions(defs, prims, xs) && ObjectConversion(d, prims, x)
    ensures ObjectConversions(defs + [d], prims, xs + [x])
  {
  }

  /** Converted definitions are all declared objects and not ignored, and
   *  each node is a valid object node. */
  lemma ObjectConversionsOnly(defs: seq<JsonSchema>, prims: Primitives, xs: seq<CppSchema>)
    requires ObjectConversions(defs, prims, xs)
    ensures forall d :: d in defs ==> d.schemaKind == Some(ObjectKind) && !d.ignore
    ensures forall k :: 0 <= k < |xs| ==> xs[k].kind == ObjectKind && NodeValid(xs[k])
  {
    forall d | d in defs
      ensures d.schemaKind == Some(ObjectKind) && !d.ignore
    {
      var j :| 0 <= j < |defs| && defs[j] == d;
      assert ObjectConversion(defs[j], prims, xs[j]);
    }
  }

  /** The object constructor's loop over "definitions": every entry with a
   *  typename goes through the object constructor, in order, whatever its
   *  declared kind, so the first one that is not an object, or is ignored,
   *  makes the whole conversion fail. */
  method ConvertObjectDefinitions(s: JsonSchema, prims: Primitives) returns (r: Result<seq<CppSchema>>)
    ensures (exists d :: d in ObjectDefinitionSchemas(s.definitions) && (d.schemaKind != Some(ObjectKind) || d.ignore)) ==> r.Err?
    ensures r.Ok? ==> |r.value| == |ObjectDefinitionSchemas(s.definitions)|
    ensures r.Ok? ==> forall k :: 0 <= k < |r.value| ==> r.value[k].kind == ObjectKind && NodeValid(r.value[k])
    ensures r.Ok? ==> forall k :: 0 <= k < |r.value| ==> ObjectConversion(ObjectDefinitionSchemas(s.definitions)[k], prims, r.value[k])
    decreases s, 0
  {
    var entries := s.definitions;
    var definitions: seq<CppSchema> := [];
    var k := 0;
    while k < |entries|
      invariant 0 <= k <= |entries|
      invariant ObjectConversions(ObjectDefinitionSchemas(entries[..k]), prims, definitions)
    {
      var entry := entries[k];
      ObjectDefinitionsStep(entries, k);
      if entry.value.Some? && entry.value.value.hppTypename.Some? {
        assert entry in s.definitions;
        var converted := NewObjectSchema(entry.value.value, prims);
        if converted.Err? {
          return Err(converted.failure);
        }
        ObjectConversionsStep(ObjectDefinitionSchemas(entries[..k]), prims, definitions, entry.value.value, converted.value);
        definitions := definitions + [converted.value];
      }
      k := k + 1;
    }
    assert entries[..k] == entries;
    ObjectConversionsOnly(ObjectDefinitionSchemas(entries), prims, definitions);
    r := Ok(definitions);
  }

  /** The common constructor's loop over "definitions". */
  method ConvertDefinitions(s: JsonSchema, prims: Primitives) returns (r: Result<seq<CppSchema>>)
    ensures r.Ok? ==> |r.value| == |DefinitionSchemas(s.definitions)|
    ensures r.Ok? ==> forall k :: 0 <= k < |r.value| ==>
      DefinitionSchemas(s.definitions)[k].schemaKind == Some(r.value[k].kind) && NodeValid(r.value[k])
    decreases s, 0
  {
    var entries := s.definitions;
    var definitions: seq<CppSchema> := [];
    var k := 0;
    while k < |entries|
      invariant 0 <= k <= |entries|
      invariant |definitions| == |DefinitionSchemas(entries[..k])|
      invariant forall j :: 0 <= j < |definitions| ==>
        DefinitionSchemas(entries[..k])[j].schemaKind == Some(definitions[j].kind) && NodeValid(definitions[j])
    {
      var entry := entries[k];
      DefinitionsStep(entries, k);
      if entry.value.Some? && entry.value.value.hppTypename.Some? && !entry.value.value.ignore {
        assert entry in s.definitions;
        var converted := ToCppType(entry.value.value, prims);
        if converted.Err? {
          return Err(converted.failure);
        }
        definitions := definitions + [converted.value];
      }
      k := k + 1;
    }
    assert entries[..k] == entries;
    r := Ok(definitions);
  }

  // ---------------------------------------------------------------------------
  // The common constructor
  // ---------------------------------------------------------------------------

  /** The kind of an array's items once ValidateJsonSchema has run, and the
   *  default otherwise. */
  function ItemsKindOf(s: JsonSchema, kind: SchemaKind): SchemaKind {
    if kind == ArrayKind && s.itemSchema.Some? && s.itemSchema.value.schemaKind.Some?
    then s.itemSchema.value.schemaKind.value else DefaultItemsKind
  }

  /** The "hppIncludes" and "hppExtensions" of a schema (none when absent). */
  function IncludeList(s: JsonSchema): seq<HppInclude> {
    if s.hppIncludes.Some? then s.hppIncludes.value else []
  }

  function ExtensionList(s: JsonSchema): seq<Option<string>> {
    if s.hppExtensions.Some? then s.hppExtensions.value else []
  }

  /** The permissible value codes: one parsed literal per permissible value,
   *  and at least one when the schema lists them. */
  predicate CodesOf(s: JsonSchema, kind: SchemaKind, prims: Primitives, codes: seq<Option<string>>) {
    (s.permissibleValues.None? ==> codes == [])
    && (s.permissibleValues.Some? ==>
          |codes| == |s.permissibleValues.value| > 0
          && forall k :: 0 <= k < |codes| ==>
               Parse(kind, DefaultItemsKind, prims, s.permissibleValues.value[k]) == Ok(codes[k]))
  }

  /** The default value: the schema's own code or the parsed "default"; it is
   *  trivial exactly when it equals the parse of no value, and only a trivial
   *  default has the kind's condition format. */
  predicate DefaultsOf(s: JsonSchema, kind: SchemaKind, prims: Primitives, d: Defaults) {
    var itemsKind := ItemsKindOf(s, kind);
    var trivial := Parse(kind, itemsKind, prims, Undefined);
    var own := TrimNullify(s.hppDefaultValueCode);
    trivial.Ok? && trivial.value.Some?
    && (d.isTrivial <==> d.code == trivial.value.value)
    && (own.Some? ==> d.code == own.value)
    && (own.None? ==> Parse(kind, itemsKind, prims, s.defaultValue) == Ok(Some(d.code)))
    && d.conditionFormat == (if d.isTrivial then TrivialDefaultConditionFormat(kind, prims) else None)
  }

  datatype Defaults = Defaults(code: string, isTrivial: bool, conditionFormat: Option<string>)

  function DefaultsIn(x: CppSchema): Defaults {
    Defaults(x.defaultValueCode, x.isDefaultValueTrivial, x.defaultConditionFormat)
  }

  /** What the common constructor sets before converting nested schemas. */
  predicate HeaderFields(s: JsonSchema, kind: SchemaKind, prims: Primitives, x: CppSchema) {
    x.kind == kind
    && x.propertyName == TrimNullify(s.propertyName)
    && x.description == TrimNullify(s.description)
    && x.isPropertyInherited == s.hppIsInherited && !x.isPropertyRequired
    && x.skipHash == s.skipHash
    && Some(x.typename) == TypenameOf(s, kind, prims)
    && x.namespace == TrimNullify(s.hppNamespace)
    && CodesOf(s, kind, prims, x.permissibleValueCodes)
    && |x.includes| == |IncludeList(s)|
    && (forall k :: 0 <= k < |x.includes| ==> x.includes[k] == TrimmedInclude(IncludeList(s)[k]))
  }

  /** What the common constructor sets from the JSON schema. */
  predicate CommonFields(s: JsonSchema, kind: SchemaKind, prims: Primitives, x: CppSchema) {
    HeaderFields(s, kind, prims, x)
    && |x.extensions| == |ExtensionList(s)|
    && (forall k :: 0 <= k < |x.extensions| ==> x.extensions[k] == ExtensionText(ExtensionList(s)[k]))
    && DefaultsOf(s, kind, prims, DefaultsIn(x))
  }

  /** The clause of a hard-coded enumeration, when there is one. */
  function EnumClauses(s: JsonSchema, codes: seq<Option<string>>, message: string): seq<CodeLine> {
    if s.hppDoHardcodeEnums && |codes| > 0 then [EnumClauseOf(EnumTests(codes), message)] else []
  }

  /** The kind's own clauses that do not depend on a nested schema. */
  function KindClauses(s: JsonSchema, kind: SchemaKind, prims: Primitives, message: string): seq<CodeLine> {
    if IsPrimitive(kind) then ClassOf(prims, kind).moreValidationFormat(s, message)
    else if kind == StringKind then CppStringSchema.MoreValidationFormat(s, message)
    else if kind == ArrayKind then CppArraySchema.SizeClauses(s, message)
    else []
  }

  /** The clauses in order: the invalid formats, the enumeration clause, then
   *  the kind's own. */
  function LeadClauses(s: JsonSchema, kind: SchemaKind, prims: Primitives, codes: seq<Option<string>>): seq<CodeLine>
    requires ConditionsPresent(Conditions(s))
  {
    var message := ValidationMessage(s);
    InvalidClauses(Conditions(s), message) + EnumClauses(s, codes, message) + KindClauses(s, kind, prims, message)
  }

  /** The validation clauses are the lead clauses, which an array may follow
   *  with its element loop. */
  predicate ClausesOf(s: JsonSchema, kind: SchemaKind, prims: Primitives, codes: seq<Option<string>>, formats: seq<CodeLine>) {
    ConditionsPresent(Conditions(s))
    && var lead := LeadClauses(s, kind, prims, codes);
       |lead| <= |formats| && formats[..|lead|] == lead
       && (kind != ArrayKind ==> formats == lead)
  }

  /** The kind-specific part a freshly constructed schema starts with. */
  function BaseDetails(kind: SchemaKind, itemsKind: SchemaKind): KindDetails {
    if kind == ArrayKind then ArrayDetails(itemsKind)
    else if kind == StringKind then StringDetails(None)
    else if kind == ObjectKind then ObjectDetails([], [], [], 0, 0, [])
    else PrimitiveDetails
  }

  /** The kind-specific state a freshly constructed schema has. */
  predicate BaseFlags(s: JsonSchema, kind: SchemaKind, prims: Primitives, x: CppSchema) {
    x.details == BaseDetails(kind, ItemsKindOf(s, kind))
    && x.doesRequireValidationOverride == (if kind == ObjectKind then Some(false) else None)
    && x.doPassByValue == (IsPrimitive(kind) && ClassOf(prims, kind).doPassByValue)
    && !x.doesSupportCodeGeneration
  }

  /** The common constructor's loop over "enum": each value parsed, and an
   *  empty list of permissible values is a SchemaException. */
  method PermissibleCodes(s: JsonSchema, kind: SchemaKind, prims: Primitives) returns (r: Result<seq<Option<string>>>)
    ensures s.permissibleValues == Some([]) ==> r == Err(SchemaError)
    ensures r.Ok? ==> CodesOf(s, kind, prims, r.value)
  {
    if s.permissibleValues.None? {
      return Ok([]);
    }
    var parsed := ParsePermissibleValues(kind, prims, s.permissibleValues.value);
    if parsed.Err? {
      return Err(parsed.failure);
    }
    if |parsed.value| == 0 {
      return Err(SchemaError);
    }
    r := Ok(parsed.value);
  }

  /** A freshly constructed schema keeps the invariant of conversion. */
  lemma FreshNodeValid(x: CppSchema, kind: SchemaKind, itemsKind: SchemaKind)
    requires x.kind == kind && x.details == BaseDetails(kind, itemsKind)
    requires x.doesRequireValidationOverride == (if kind == ObjectKind then Some(false) else None)
    requires !x.doesSupportCodeGeneration && x.defaultConditionFormat.None?
    requires Trimmed(x.typename) && !(Contains(x.typename, "::") && x.namespace.Some?)
    requires x.namespace.Some? ==> Trimmed(x.namespace.value)
    requires x.propertyName.Some? ==> Trimmed(x.propertyName.value)
    requires forall k :: 0 <= k < |x.includes| ==> x.includes[k].header.Some?
    ensures NodeValid(x)
  {
    if kind == ObjectKind {
      assert !AnyRequiresValidation([]);
    }
  }

  /** The common constructor's checks on the kind, the names and the typename,
   *  and its loops over the permissible values and the includes. */
  method Header(s: JsonSchema, kind: SchemaKind, prims: Primitives) returns (r: Result<CppSchema>)
    ensures s.schemaKind != Some(kind) || s.ignore ==> r == Err(SchemaError)
    ensures TypenameOf(s, kind, prims).None? ==> r.Err?
    ensures (TypenameOf(s, kind, prims).Some? && Contains(TypenameOf(s, kind, prims).value, "::")
      && TrimNullify(s.hppNamespace).Some?) ==> r.Err?
    ensures s.permissibleValues == Some([]) ==> r.Err?
    ensures r.Ok? ==> HeaderFields(s, kind, prims, r.value) && NodeValid(r.value) && BaseFlags(s, kind, prims, r.value)
    ensures r.Ok? ==> r.value.definitions == [] && r.value.validationFormats == []
  {
    if s.schemaKind != Some(kind) || s.ignore {
      return Err(SchemaError);
    }
    var typename := TypenameOf(s, kind, prims);
    var namespace := TrimNullify(s.hppNamespace);
    if typename.None? {
      return Err(SchemaError);
    }
    if Contains(typename.value, "::") && namespace.Some? {
      return Err(SchemaError);
    }
    var codes := PermissibleCodes(s, kind, prims);
    if codes.Err? {
      return Err(codes.failure);
    }
    var includes := TrimIncludes(IncludeList(s));
    if includes.Err? {
      return Err(includes.failure);
    }
    HeaderOfValid(s, kind, prims, codes.value, includes.value);
    r := Ok(HeaderOf(s, kind, prims, typename.value, codes.value, includes.value));
  }

  /** The schema the common constructor has built before its definitions. */
  function HeaderOf(s: JsonSchema, kind: SchemaKind, prims: Primitives, typename: string,
      codes: seq<Option<string>>, includes: seq<HppInclude>): CppSchema
  {
    CppSchema(kind, s.skipHash, TrimNullify(s.propertyName), TrimNullify(s.description),
      s.hppIsInherited, false, typename, TrimNullify(s.hppNamespace), codes, includes, [], [], "", false, None, [],
      if kind == ObjectKind then Some(false) else None,
      IsPrimitive(kind) && ClassOf(prims, kind).doPassByValue, false,
      BaseDetails(kind, ItemsKindOf(s, kind)))
  }

  /** Built from a typename that may carry a namespace only when none is
   *  given, and from trimmed includes, it keeps the invariant of conversion. */
  lemma HeaderOfValid(s: JsonSchema, kind: SchemaKind, prims: Primitives,
      codes: seq<Option<string>>, includes: seq<HppInclude>)
    requires TypenameOf(s, kind, prims).Some?
    requires !(Contains(TypenameOf(s, kind, prims).value, "::") && TrimNullify(s.hppNamespace).Some?)
    requires CodesOf(s, kind, prims, codes)
    requires |includes| == |IncludeList(s)|
    requires forall k :: 0 <= k < |includes| ==> includes[k] == TrimmedInclude(IncludeList(s)[k])
    requires forall k :: 0 <= k < |includes| ==> includes[k].header.Some?
    ensures var x := HeaderOf(s, kind, prims, TypenameOf(s, kind, prims).value, codes, includes);
      HeaderFields(s, kind, prims, x) && NodeValid(x) && BaseFlags(s, kind, prims, x)
      && x.definitions == [] && x.validationFormats == []
  {
    TrimNullifyTrimmed(s.propertyName);
    TrimNullifyTrimmed(s.hppNamespace);
    var x := HeaderOf(s, kind, prims, TypenameOf(s, kind, prims).value, codes, includes);
    FreshNodeValid(x, kind, ItemsKindOf(s, kind));
  }

  /** The common constructor's default value: the schema's own code or the
   *  parsed "default", compared with the parse of no value. */
  method DefaultValue(s: JsonSchema, kind: SchemaKind, prims: Primitives) returns (r: Result<Defaults>)
    ensures r.Ok? ==> DefaultsOf(s, kind, prims, r.value)
    ensures Parse(kind, ItemsKindOf(s, kind), prims, Undefined) == Ok(None) ==> r == Err(ApplicationError)
  {
    var itemsKind := ItemsKindOf(s, kind);
    var trivial := Parse(kind, itemsKind, prims, Undefined);
    if trivial.Err? {
      return Err(trivial.failure);
    }
    if trivial.value.None? {
      return Err(ApplicationError);
    }
    var code := TrimNullify(s.hppDefaultValueCode);
    if code.None? {
      var parsed := Parse(kind, itemsKind, prims, s.defaultValue);
      if parsed.Err? {
        return Err(parsed.failure);
      }
      code := parsed.value;
    }
    if code.None? {
      return Err(ApplicationError);
    }
    var isTrivial := code.value == trivial.value.value;
    r := Ok(Defaults(code.value, isTrivial, if isTrivial then TrivialDefaultConditionFormat(kind, prims) else None));
  }

  /** The common constructor up to the validation clauses. */
  method Prepare(s: JsonSchema, kind: SchemaKind, prims: Primitives) returns (r: Result<CppSchema>)
    ensures s.schemaKind != Some(kind) || s.ignore ==> r == Err(SchemaError)
    ensures TypenameOf(s, kind, prims).None? ==> r.Err?
    ensures (TypenameOf(s, kind, prims).Some? && Contains(TypenameOf(s, kind, prims).value, "::")
      && TrimNullify(s.hppNamespace).Some?) ==> r.Err?
    ensures s.permissibleValues == Some([]) ==> r.Err?
    ensures r.Ok? ==> CommonFields(s, kind, prims, r.value) && NodeValid(r.value) && BaseFlags(s, kind, prims, r.value)
    ensures r.Ok? ==> r.value.validationFormats == []
    ensures r.Ok? && kind == ArrayKind ==> s.itemSchema.Some? && s.itemSchema.value.schemaKind.Some?
    decreases s, 1
  {
    var header := Header(s, kind, prims);
    if header.Err? {
      return header;
    }
    var definitions := ConvertDefinitions(s, prims);
    if definitions.Err? {
      return Err(definitions.failure);
    }
    var extensions := TrimExtensions(ExtensionList(s));
    if kind == ArrayKind {
      var validated := CppArraySchema.ValidateJsonSchema(s);
      if validated.Err? {
        return Err(validated.failure);
      }
    }
    var defaults := DefaultValue(s, kind, prims);
    if defaults.Err? {
      return Err(defaults.failure);
    }
    WithParts(s, kind, prims, header.value, definitions.value, extensions, defaults.value);
    r := Ok(header.value.(definitions := definitions.value, extensions := extensions,
      defaultValueCode := defaults.value.code, isDefaultValueTrivial := defaults.value.isTrivial,
      defaultConditionFormat := defaults.value.conditionFormat));
  }

  /** Adding the definitions, the extensions and the default value to the
   *  header gives the common fields and keeps the invariant of conversion. */
  lemma WithParts(s: JsonSchema, kind: SchemaKind, prims: Primitives, header: CppSchema,
      definitions: seq<CppSchema>, extensions: seq<string>, defaults: Defaults)
    requires HeaderFields(s, kind, prims, header) && NodeValid(header) && BaseFlags(s, kind, prims, header)
    requires |extensions| == |ExtensionList(s)|
    requires forall k :: 0 <= k < |extensions| ==> extensions[k] == ExtensionText(ExtensionList(s)[k])
    requires DefaultsOf(s, kind, prims, defaults)
    ensures var x := header.(definitions := definitions, extensions := extensions,
        defaultValueCode := defaults.code, isDefaultValueTrivial := defaults.isTrivial,
        defaultConditionFormat := defaults.conditionFormat);
      CommonFields(s, kind, prims, x) && NodeValid(x) && BaseFlags(s, kind, prims, x)
  {
    var x := header.(definitions := definitions, extensions := extensions,
      defaultValueCode := defaults.code, isDefaultValueTrivial := defaults.isTrivial,
      defaultConditionFormat := defaults.conditionFormat);
    assert DefaultsIn(x) == defaults;
    assert NodeValid(x);
  }

  /** The common constructor's validation clauses, in order. */
  method ValidationClauses(s: JsonSchema, kind: SchemaKind, prims: Primitives, codes: seq<Option<string>>)
    returns (r: Result<seq<CodeLine>>)
    requires kind == ArrayKind ==> s.itemSchema.Some?
    ensures r.Ok? ==> ClausesOf(s, kind, prims, codes, r.value)
    ensures !ConditionsPresent(Conditions(s)) ==> r == Err(SchemaError)
    decreases s, 1
  {
    var message := ValidationMessage(s);
    var formats := InvalidFormatClauses(Conditions(s), message);
    if formats.Err? {
      return Err(formats.failure);
    }
    var clauses := formats.value;
    if s.hppDoHardcodeEnums && |codes| > 0 {
      var clause := EnumClause(codes, message);
      clauses := clauses + [clause];
    }
    var lead := LeadClauses(s, kind, prims, codes);
    assert clauses + KindClauses(s, kind, prims, message) == lead;
    if kind == ArrayKind {
      var more := ArrayClauses(s, prims, message);
      if more.Err? {
        return Err(more.failure);
      }
      PrefixAppend(clauses, CppArraySchema.SizeClauses(s, message), more.value);
      r := Ok(clauses + more.value);
    } else {
      r := Ok(lead);
    }
  }

  /** An array's own clauses: the size clauses, then the loop over the
   *  elements when the element schema (unless ignored) requires validation. */
  method ArrayClauses(s: JsonSchema, prims: Primitives, message: string) returns (r: Result<seq<CodeLine>>)
    requires s.itemSchema.Some?
    ensures r.Ok? ==> var n := |CppArraySchema.SizeClauses(s, message)|;
      n <= |r.value| && r.value[..n] == CppArraySchema.SizeClauses(s, message)
    decreases s, 0
  {
    var itemsSchema: Option<CppSchema> := None;
    var item := s.itemSchema.value;
    if !item.ignore {
      var converted := ToCppType(item, prims);
      if converted.Err? {
        return Err(converted.failure);
      }
      itemsSchema := Some(converted.value);
    }
    r := CppArraySchema.MoreValidationFormat(s, message, itemsSchema);
  }

  /** A sequence that starts with b, put after a, starts with a + b. */
  lemma PrefixAppend<T>(a: seq<T>, b: seq<T>, c: seq<T>)
    requires |b| <= |c| && c[..|b|] == b
    ensures |a + b| <= |a + c| && (a + c)[..|a + b|] == a + b
  {
    assert (a + c)[..|a + b|] == a + c[..|b|];
  }

  /** Setting the validation clauses keeps what the common constructor set. */
  lemma WithFormats(s: JsonSchema, kind: SchemaKind, prims: Primitives, x: CppSchema, formats: seq<CodeLine>)
    requires CommonFields(s, kind, prims, x) && NodeValid(x) && BaseFlags(s, kind, prims, x)
    ensures var y := x.(validationFormats := formats);
      CommonFields(s, kind, prims, y) && NodeValid(y) && BaseFlags(s, kind, prims, y)
  {
    var y := x.(validationFormats := formats);
    assert DefaultsIn(y) == DefaultsIn(x);
    assert NodeValid(y);
  }

  /** The CppSchemaBase constructor: the common fields, then the validation
   *  clauses in their order. */
  method Construct(s: JsonSchema, kind: SchemaKind, prims: Primitives) returns (r: Result<CppSchema>)
    ensures s.schemaKind != Some(kind) || s.ignore ==> r == Err(SchemaError)
    ensures TypenameOf(s, kind, prims).None? ==> r.Err?
    ensures (TypenameOf(s, kind, prims).Some? && Contains(TypenameOf(s, kind, prims).value, "::")
      && TrimNullify(s.hppNamespace).Some?) ==> r.Err?
    ensures s.permissibleValues == Some([]) ==> r.Err?
    ensures !ConditionsPresent(Conditions(s)) ==> r.Err?
    ensures r.Ok? ==> CommonFields(s, kind, prims, r.value) && NodeValid(r.value) && BaseFlags(s, kind, prims, r.value)
    ensures r.Ok? ==> ClausesOf(s, kind, prims, r.value.permissibleValueCodes, r.value.validationFormats)
    decreases s, 2
  {
    var prepared := Prepare(s, kind, prims);
    if prepared.Err? {
      return prepared;
    }
    var x := prepared.value;
    var formats := ValidationClauses(s, kind, prims, x.permissibleValueCodes);
    if formats.Err? {
      return Err(formats.failure);
    }
    WithFormats(s, kind, prims, x, formats.value);
    r := Ok(x.(validationFormats := formats.value));
  }

  // ---------------------------------------------------------------------------
  // Invalidate
  // ---------------------------------------------------------------------------

  /** What the kind's InvalidateOverride accepts: a string schema needs a
   *  namespace and no value named like a reserved typedef; the others accept
   *  anything. */
  predicate OverrideAccepts(x: CppSchema, reservedNames: seq<string>) {
    x.kind == StringKind ==>
      x.namespace.Some?
      && forall k :: 0 <= k < |x.UnquotedValues()| ==> !CppStringSchema.IsReserved(x.UnquotedValues()[k], reservedNames)
  }

  /** What the common Invalidate accepts: a schema that supports code
   *  generation, whose definitions are all accepted, and which its own kind
   *  accepts. */
  predicate InvalidateAccepts(x: CppSchema, reservedNames: seq<string>)
    decreases x
  {
    x.doesSupportCodeGeneration
    && (forall k :: 0 <= k < |x.definitions| ==> InvalidateAccepts(x.definitions[k], reservedNames))
    && OverrideAccepts(x, reservedNames)
  }

  /** The outcome of the common Invalidate: NotSupportedException for a schema
   *  that does not support code generation, then the first definition's
   *  failure, then the kind's own failure; never a warning. */
  function InvalidateResult(x: CppSchema, reservedNames: seq<string>): Result<seq<string>>
    decreases x, 1
  {
    if !x.doesSupportCodeGeneration then Err(NotSupported)
    else
      var definitions := DefinitionsResult(x, reservedNames, 0);
      if definitions.Err? then definitions
      else if OverrideAccepts(x, reservedNames) then Ok([]) else Err(SchemaError)
  }

  /** The definitions from the k-th on, in order, up to the first failure. */
  function DefinitionsResult(x: CppSchema, reservedNames: seq<string>, k: nat): Result<seq<string>>
    decreases x, 0, |x.definitions| - k
  {
    if k >= |x.definitions| then Ok([])
    else
      var first := InvalidateResult(x.definitions[k], reservedNames);
      if first.Err? then first else DefinitionsResult(x, reservedNames, k + 1)
  }

  /** The outcome succeeds exactly when the schema is accepted, and a failure is
   *  one of the two exceptions Invalidate documents. */
  lemma {:induction false} InvalidateResultSpec(x: CppSchema, reservedNames: seq<string>)
    ensures InvalidateResult(x, reservedNames).Ok? <==> InvalidateAccepts(x, reservedNames)
    ensures InvalidateResult(x, reservedNames).Ok? ==> InvalidateResult(x, reservedNames).value == []
    ensures InvalidateResult(x, reservedNames).Err? ==>
      InvalidateResult(x, reservedNames).failure in {NotSupported, SchemaError}
    decreases x, 1
  {
    if x.doesSupportCodeGeneration {
      DefinitionsResultSpec(x, reservedNames, 0);
    }
  }

  lemma {:induction false} DefinitionsResultSpec(x: CppSchema, reservedNames: seq<string>, k: nat)
    ensures DefinitionsResult(x, reservedNames, k).Ok? <==>
      forall j :: k <= j < |x.definitions| ==> InvalidateAccepts(x.definitions[j], reservedNames)
    ensures DefinitionsResult(x, reservedNames, k).Ok? ==> DefinitionsResult(x, reservedNames, k).value == []
    ensures DefinitionsResult(x, reservedNames, k).Err? ==>
      DefinitionsResult(x, reservedNames, k).failure in {NotSupported, SchemaError}
    decreases x, 0, |x.definitions| - k
  {
    if k < |x.definitions| {
      InvalidateResultSpec(x.definitions[k], reservedNames);
      DefinitionsResultSpec(x, reservedNames, k + 1);
    }
  }

  /** The kind's InvalidateOverride: the string checks, or no warnings. */
  method InvalidateOverride(x: CppSchema, reservedNames: seq<string>) returns (r: Result<seq<string>>)
    ensures r.Ok? <==> OverrideAccepts(x, reservedNames)
    ensures r.Ok? ==> r.value == []
    ensures r.Err? ==> r.failure == SchemaError
  {
    if x.kind == StringKind {
      r := CppStringSchema.InvalidateOverride(x, reservedNames);
    } else {
      r := Ok([]);
    }
  }

  /** The common Invalidate: only a schema that supports code generation may be
   *  checked (NotSupportedException otherwise); each definition is checked in
   *  turn, and then the kind's own checks replace the warnings collected so
   *  far, so the result never carries a warning. */
  method Invalidate(x: CppSchema, reservedNames: seq<string>) returns (r: Result<seq<string>>)
    ensures r == InvalidateResult(x, reservedNames)
    decreases x
  {
    if !x.doesSupportCodeGeneration {
      return Err(NotSupported);
    }
    var warnings: seq<string> := [];
    var k := 0;
    while k < |x.definitions|
      invariant 0 <= k <= |x.definitions|
      invariant DefinitionsResult(x, reservedNames, 0) == DefinitionsResult(x, reservedNames, k)
    {
      var more := Invalidate(x.definitions[k], reservedNames);
      if more.Err? {
        return Err(more.failure);
      }
      InvalidateResultSpec(x.definitions[k], reservedNames);
      warnings := warnings + more.value;
      k := k + 1;
    }
    r := InvalidateOverride(x, reservedNames);
  }

  /** Of the converted schemas, only strings may pass the common Invalidate. */
  lemma OnlyStringsInvalidate(x: CppSchema, reservedNames: seq<string>)
    requires NodeValid(x) && InvalidateAccepts(x, reservedNames)
    ensures x.kind == StringKind && x.namespace.Some?
    ensures x.details.unquotedPermissibleValues.Some? && |x.UnquotedValues()| > 0
  {
  }
}
