/** A schema node converted for C++ code generation: what the generators read
 *  through ICppSchema and the concrete schema classes (ICppSchema.cs,
 *  CppSchemaBase.cs, CppArraySchema.cs, CppStringSchema.cs, CppObjectSchema.cs). */
module ICppSchema {
  import opened Errors
  import opened JsonModel
  import opened Extenders
  import opened CodeBuilder

  /** What only one kind of schema carries. */
  datatype KindDetails =
      /** CppNullSchema, CppBooleanSchema, CppIntegerSchema, CppNumberSchema. */
    | PrimitiveDetails
    | ArrayDetails(itemsKind: SchemaKind)
      /** The permissible values without their quotes, present when enums are hard-coded. */
    | StringDetails(unquotedPermissibleValues: Option<seq<string>>)
      /** Properties come required first; `definitions` are the nested object
       *  schemas built by CppObjectSchema itself. */
    | ObjectDetails(
        templates: seq<HppTemplate>,
        inherits: seq<Option<HppInherit>>,
        properties: seq<CppSchema>,
        countRequired: nat,
        countOptional: nat,
        objectDefinitions: seq<CppSchema>)

  /** A string interpolated into C# text: a null string contributes nothing. */
  function Interpolated(x: Option<string>): string {
    if x.Some? then x.value else ""
  }

  /** A converted schema node. `permissibleValueCodes` holds the C++ literal of
   *  each permissible value (None where the literal was empty). */
  datatype CppSchema = CppSchema(
    kind: SchemaKind,
    skipHash: bool,
    propertyName: Option<string>,
    description: Option<string>,
    isPropertyInherited: bool,
    isPropertyRequired: bool,
    typename: string,
    namespace: Option<string>,
    permissibleValueCodes: seq<Option<string>>,
    includes: seq<HppInclude>,
    definitions: seq<CppSchema>,
    extensions: seq<string>,
    defaultValueCode: string,
    isDefaultValueTrivial: bool,
    defaultConditionFormat: Option<string>,
    validationFormats: seq<CodeLine>,
    doesRequireValidationOverride: Option<bool>,
    doPassByValue: bool,
    doesSupportCodeGeneration: bool,
    details: KindDetails)
  {
    /** MethodName: the snake-case form of the property name. */
    function MethodName(): Option<string> {
      if propertyName.None? then None else Some(SnakeCase(propertyName.value))
    }

    /** FieldName: the method name after "m_". */
    function FieldName(): Option<string> {
      if propertyName.None? then None else Some("m_" + SnakeCase(propertyName.value))
    }

    /** DoesRequireValidation: the kind's override when it has one, otherwise
     *  whether there is any validation clause. */
    predicate DoesRequireValidation() {
      if doesRequireValidationOverride.Some? then doesRequireValidationOverride.value
      else |validationFormats| > 0
    }

    /** The properties of an object schema (none for other kinds). */
    function Properties(): seq<CppSchema> {
      if details.ObjectDetails? then details.properties else []
    }

    /** The template parameters, base classes and nested object definitions
     *  of an object schema (none for other kinds). */
    function Templates(): seq<HppTemplate> {
      if details.ObjectDetails? then details.templates else []
    }

    function Inherits(): seq<Option<HppInherit>> {
      if details.ObjectDetails? then details.inherits else []
    }

    function ObjectDefinitions(): seq<CppSchema> {
      if details.ObjectDetails? then details.objectDefinitions else []
    }

    /** CountRequiredProperties (zero for other kinds). */
    function CountRequired(): nat {
      if details.ObjectDetails? then details.countRequired else 0
    }

    /** CountOptionalProperties (zero for other kinds). */
    function CountOptional(): nat {
      if details.ObjectDetails? then details.countOptional else 0
    }

    /** The unquoted permissible values of a string schema with hard-coded enums. */
    function UnquotedValues(): seq<string> {
      if details.StringDetails? && details.unquotedPermissibleValues.Some?
      then details.unquotedPermissibleValues.value else []
    }

    /** A helper of this model, with no counterpart in the interface: the
     *  leading properties, the ones an object schema counts as required. */
    function RequiredProperties(): seq<CppSchema> {
      if details.ObjectDetails? && details.countRequired <= |details.properties|
      then details.properties[..details.countRequired] else []
    }
  }

  /** A property's field is "m_" followed by its method name, a snake-case
   *  identifier; both exist exactly when the property has a name. */
  lemma FieldNameSpec(x: CppSchema)
    ensures x.FieldName().Some? <==> x.propertyName.Some?
    ensures x.MethodName().Some? <==> x.propertyName.Some?
    ensures x.FieldName().Some? ==>
      x.FieldName().value == "m_" + x.MethodName().value
      && SnakeAlphabet(x.MethodName().value) && NoDoubleUnderscore(x.MethodName().value)
  {
    if x.propertyName.Some? {
      SnakeCaseShape(x.propertyName.value);
    }
  }

  /** HppInclude.TrimmedClone: every field trimmed, an empty one becoming null. */
  function TrimmedInclude(x: HppInclude): HppInclude {
    HppInclude(TrimNullify(x.header), TrimNullify(x.comment))
  }

  /** HppTemplate.TrimmedClone. */
  function TrimmedTemplate(x: HppTemplate): HppTemplate {
    HppTemplate(TrimNullify(x.key), TrimNullify(x.name), TrimNullify(x.alias))
  }

  /** HppInherit.TrimmedClone. */
  function TrimmedInherit(x: HppInherit): HppInherit {
    HppInherit(TrimNullify(x.name), TrimNullify(x.inheritanceType),
      TrimNullify(x.errorMessageCall), TrimNullify(x.constructorArgumentsFormat))
  }

  /** The validation clause for a size bound: `comparison` is "<" for a lower
   *  bound and ">" for an upper bound; `{0}` stands for the validated value. */
  function BoundClause(comparison: string, bound: int, message: string): CodeLine {
    CodeLine("if ({0}.size() " + comparison + " " + IntText(bound) + ") return \"" + message + "\";", 0)
  }
}
