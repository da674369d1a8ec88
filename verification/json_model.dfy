/** The parts of the JSON-schema input that the code generator reads.
 *  The JSON document itself (System.Text.Json's JsonElement) and the schema
 *  record it is deserialised into are modelled as plain values; parsing text
 *  into them is not part of this model. */
module JsonModel {
  import opened Errors

  /** System.Text.Json.JsonValueKind: the kind of a JSON value. */
  datatype JsonValueKind =
    | UndefinedValue | ObjectValue | ArrayValue | StringValue
    | NumberValue | TrueValue | FalseValue | NullValue

  /** The value kinds a JSON schema can declare (its "type" keyword). */
  datatype SchemaKind =
    | NullKind | BooleanKind | IntegerKind | NumberKind | StringKind | ArrayKind | ObjectKind

  /** A JSON value. `Undefined` is the default JsonElement, used for "no value".
   *  A number keeps its raw text, the Int64 it parses to (None when Int64.Parse
   *  rejects the text) and the text .NET prints for it as a Double.
   *  A string keeps its raw JSON text, quotes and escapes included. */
  datatype JsonValue =
    | Undefined
    | JsonNull
    | JsonTrue
    | JsonFalse
    | JsonNumber(raw: string, int64: Option<int>, doubleText: string)
    | JsonString(raw: string)
    | JsonArray(items: seq<JsonValue>)
    | JsonObject(raw: string)
  {
    function Kind(): JsonValueKind {
      match this
      case Undefined => UndefinedValue
      case JsonNull => NullValue
      case JsonTrue => TrueValue
      case JsonFalse => FalseValue
      case JsonNumber(_, _, _) => NumberValue
      case JsonString(_) => StringValue
      case JsonArray(_) => ArrayValue
      case JsonObject(_) => ObjectValue
    }
  }

  /** An include directive requested by a schema ("hppIncludes"). */
  datatype HppInclude = HppInclude(header: Option<string>, comment: Option<string>)

  /** A template parameter requested by a schema ("hppTemplates"). */
  datatype HppTemplate = HppTemplate(key: Option<string>, name: Option<string>, alias: Option<string>)

  /** A base class requested by a schema ("hppInherits"): its name, the
   *  inheritance keyword, the call of its validation and the format of its
   *  constructor arguments. */
  datatype HppInherit = HppInherit(
    name: Option<string>, inheritanceType: Option<string>,
    errorMessageCall: Option<string>, constructorArgumentsFormat: Option<string>)

  /** One entry of the "properties" or "definitions" dictionaries; the value may be null. */
  datatype Entry = Entry(key: string, value: Option<JsonSchema>)

  /** The fields of a deserialised JSON schema node that the generator reads.
   *  `ignore` and `skipHash` are the Ignore and SkipHash generator options.
   *  A missing "definitions" or "properties" dictionary is held as an empty
   *  one: the converter treats the two alike. */
  datatype JsonSchema = JsonSchema(
    schemaKind: Option<SchemaKind>,
    ignore: bool,
    skipHash: bool,
    propertyName: Option<string>,
    description: Option<string>,
    hppIsInherited: bool,
    hppTypename: Option<string>,
    hppNamespace: Option<string>,
    permissibleValues: Option<seq<JsonValue>>,
    hppIncludes: Option<seq<HppInclude>>,
    hppTemplates: Option<seq<HppTemplate>>,
    hppInherits: Option<seq<Option<HppInherit>>>,
    definitions: seq<Entry>,
    properties: seq<Entry>,
    requiredPropertyNames: Option<seq<string>>,
    hppExtensions: Option<seq<Option<string>>>,
    hppDefaultValueCode: Option<string>,
    defaultValue: JsonValue,
    hppValidationMessage: Option<string>,
    hppInvalidFormats: Option<seq<Option<string>>>,
    hppDoHardcodeEnums: bool,
    itemSchema: Option<JsonSchema>,
    minItems: Option<int>,
    maxItems: Option<int>,
    minLength: Option<int>,
    maxLength: Option<int>)
}
