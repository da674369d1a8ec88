# aftermath core, modelled in Dafny

This project models the core of the `aftermath` repository. The core has two parts.

- **JsonSchemaToHpp.** A C# tool that reads a JSON Schema and generates a C++ header with one struct or enumeration per schema. The header comes with its nlohmann-json converters, its `noexcept_json` serializer, its validation and its `std::hash`. The model covers:
  - the indentation-tracking text accumulator (`CodeBuilder`);
  - the string helpers (`Extenders`);
  - the per-kind schema normalisation (`CppSchemaBase` and the array, string and object schemas);
  - the generators of the header, the struct bodies and the enumeration bodies.
- **The C++ library `ropufu::aftermath`.** The model covers its discrete and structural components:
  - exact fractions;
  - enum-indexed arrays and flag sets;
  - sliding windows;
  - threshold stopping times, CUSUM and the window-limited CUSUM;
  - empirical-measure counting;
  - matrix index arithmetic;
  - the integer arithmetic helpers;
  - bit-mask element-wise operations;
  - the grid projector and the A* pathfinder;
  - partitioned and simple vectors;
  - the MAT v4 header;
  - intervals;
  - observer registration in discrete processes;
  - the transient-change process.

The model follows the form of each source file:
- Objects whose fields the source updates in place are classes. Their methods carry `modifies` clauses. Their loops carry the invariants that prove them against specification functions.
- Pure computations are functions.
- The properties the source promises are lemmas about those functions.
- Failures the source reports (exceptions, `std::error_code`, `false` results) are `Result` or `Option` values from the `Errors` module.

Integers are unbounded. Where the source's integer width matters, the model makes it explicit:
- the 32-bit casts of the MAT v4 header;
- the 64-bit hashes;
- the truncating C++ division.

One module per source file. Modules are named after the file they model, for example:
- `Fractions` for `fraction.hpp`;
- `Pathfinders` for `pathfinder.hpp`;
- `HppStructGenerator` for `HppStructGenerator.cs`.

`Errors` holds the shared `Option`/`Result` types and the failure kinds. `JsonModel` is the generator's view of a JSON value. `LibraryJson` is the library's view of one. Each covers only the queries the modelled code makes.

## Model

| member | source | states |
|---|---|---|
| CodeBuilder.CodeBuilder.constructor | src/JsonSchemaToHpp/CodeBuilder.cs:43-51 | a new builder has no lines and tab level 0 |
| CodeBuilder.BuilderBlock.constructor | src/JsonSchemaToHpp/CodeBuilder.cs:14-19 | opening a block raises the builder's tab level by exactly one and leaves its lines alone |
| CodeBuilder.BuilderBlock.Dispose | src/JsonSchemaToHpp/CodeBuilder.cs:21-40 | the first dispose lowers the tab level by one and releases the builder; any later dispose changes nothing, so the level is restored exactly once |
| CodeBuilder.CodeBuilder.NewCodeBlock | src/JsonSchemaToHpp/CodeBuilder.cs:58 | returns a fresh undisposed block on this builder, one level deeper, lines unchanged |
| CodeBuilder.CodeBuilder.AppendEmpty | src/JsonSchemaToHpp/CodeBuilder.cs:63-67 | exactly one empty line is added, at the current level; the level is unchanged |
| CodeBuilder.CodeBuilder.Append | src/JsonSchemaToHpp/CodeBuilder.cs:72-78 | exactly one line is added, holding the value at the current level plus the offset; the level is unchanged |
| CodeBuilder.CodeBuilder.AppendLine | src/JsonSchemaToHpp/CodeBuilder.cs:80-86 | the line is added with its own offset raised by the current level |
| CodeBuilder.CodeBuilder.AppendLines | src/JsonSchemaToHpp/CodeBuilder.cs:88-94 | the lines are added in order, each re-based onto the current level |
| CodeBuilder.CodeBuilder.AppendBuilder | src/JsonSchemaToHpp/CodeBuilder.cs:96-102 | the other builder's lines are added in order, each at the current level plus its own offset; appending a builder to itself is a no-op when it is empty, and otherwise adds its first line and then fails with InvalidOperationException, as the foreach enumerates a list that has changed |
| CodeBuilder.RebasedAt | src/JsonSchemaToHpp/CodeBuilder.cs:80-102 | re-basing keeps the number and order of lines and each line's code, and adds the level to each offset |
| CodeBuilder.RebasedAppend | src/JsonSchemaToHpp/CodeBuilder.cs:88-102 | re-basing distributes over concatenation, so appending piecewise equals appending at once |
| CodeBuilder.RebasedTwice | src/JsonSchemaToHpp/CodeBuilder.cs:80-86 | re-basing by one level and then another equals re-basing by their sum: nested builders compose indentation |
| CodeBuilder.LinesOf | src/JsonSchemaToHpp/CodeBuilder.cs:113-118 | the lines of each builder, one entry per builder, in order |
| CodeBuilder.NonEmptySpec | src/JsonSchemaToHpp/CodeBuilder.cs:117-118 | the filtered list holds exactly the non-empty pieces and is no longer than the input |
| CodeBuilder.CodeBuilder.AppendJoin | src/JsonSchemaToHpp/CodeBuilder.cs:113-129 | the builder gains the join of the non-empty builders' lines at the current level, empty builders skipped; it fails with InvalidOperationException exactly when the builder itself is listed and starts non-empty, after the pieces before it, the blank line and its own first line |
| CodeBuilder.CodeBuilder.AppendPiece | src/JsonSchemaToHpp/CodeBuilder.cs:123-124 | a blank line unless first, then the builder's lines; fails exactly when the builder is this one and holds a line by then |
| CodeBuilder.JoinedLength | src/JsonSchemaToHpp/CodeBuilder.cs:120-126 | joining n non-empty pieces adds exactly n - 1 blank lines |
| CodeBuilder.JoinedSplit | src/JsonSchemaToHpp/CodeBuilder.cs:120-126 | two joined groups are separated by exactly one blank line at the current level |
| CodeBuilder.AppendRun | src/JsonSchemaToHpp/CodeBuilder.cs:72-78 | a run of appends adds exactly the given lines, in order, and keeps the level |
| CodeBuilder.CodeBuilder.ToString | src/JsonSchemaToHpp/CodeBuilder.cs:133-148 | the text is the rendering of every line in order |
| CodeBuilder.Repeat | src/JsonSchemaToHpp/CodeBuilder.cs:143 | n copies of the indentation symbol |
| CodeBuilder.RenderAppend | src/JsonSchemaToHpp/CodeBuilder.cs:138-146 | rendering distributes over concatenation of line lists |
| CodeBuilder.RenderClampsNegative | src/JsonSchemaToHpp/CodeBuilder.cs:140 | a line on a negative level renders as on level 0, with no indentation |
| CodeBuilder.RenderLineShape | src/JsonSchemaToHpp/CodeBuilder.cs:140-145 | with collapsing on, an empty line renders as the bare terminator; otherwise a line is tabSize times its clamped level symbols, its code, then the terminator |
| Extenders.ToLower | src/JsonSchemaToHpp/Extenders.cs:28 | an upper-case letter lowers to a lower-case letter |
| Extenders.ToUpper | src/JsonSchemaToHpp/HppGenerator.cs:88-90 | a lower-case letter raises to an upper-case letter |
| Extenders.SkipWhiteSpace | src/JsonSchemaToHpp/CppSchemaBase.cs:69-74 | the first index at or after i that is not whitespace, with only whitespace skipped |
| Extenders.SkipTrailingWhiteSpace | src/JsonSchemaToHpp/CppSchemaBase.cs:69-74 | the end of the prefix once its trailing whitespace is dropped, with only whitespace dropped |
| Extenders.TrimSpec | src/JsonSchemaToHpp/CppSchemaBase.cs:69-74 | Trim yields a contiguous piece of its input with no whitespace at either end, empty exactly when the input is all whitespace |
| Extenders.Nullify | src/JsonSchemaToHpp/Extenders.cs:10-14 | null is ArgumentNullException; the empty string becomes null; any other string is kept |
| Extenders.TrimNullifySpec | src/JsonSchemaToHpp/CppSchemaBase.cs:69-74 | `x?.Trim().Nullify()` is null exactly for null or all-whitespace x, otherwise a non-empty trimmed piece of x |
| Extenders.ToFormat | src/JsonSchemaToHpp/Extenders.cs:16-17 | null is ArgumentNullException; any string is escaped |
| Extenders.ToFormatOnePass | src/JsonSchemaToHpp/Extenders.cs:16-17 | replacing `{` and then `}` equals doubling every brace in one pass |
| Extenders.DigitRun | src/JsonSchemaToHpp/HppStructGenerator.cs:162-163 | the length of the run of decimal digits that opens a placeholder index |
| Extenders.StringFormatFailure | src/JsonSchemaToHpp/HppStructGenerator.cs:162-163 | String.Format fails only with a FormatException |
| Extenders.FormatPlaceholder | src/JsonSchemaToHpp/CppArraySchema.cs:46 | formatting "{0}" with an argument gives the argument |
| Extenders.FormatEscaped | src/JsonSchemaToHpp/Extenders.cs:16-17 | formatting brace-escaped text with any arguments gives the text back |
| Extenders.ToFormatRoundTrip | src/JsonSchemaToHpp/Extenders.cs:16-17 | ToFormat of a string succeeds, and String.Format of its result, with any arguments, gives the original string |
| Extenders.DoubleCharAppend | src/JsonSchemaToHpp/Extenders.cs:17 | doubling a character distributes over concatenation |
| Extenders.PadRight | src/JsonSchemaToHpp/HppGenerator.cs:68 | the string padded with spaces to the width, or unchanged when already that wide |
| Extenders.UpperInvariant | src/JsonSchemaToHpp/HppGenerator.cs:88-90 | same length; each lower-case letter is raised and every other character kept |
| Extenders.NatText | src/JsonSchemaToHpp/HppStructGenerator.cs:110-111 | a non-empty run of decimal digits |
| Extenders.NatTextRoundTrip | src/JsonSchemaToHpp/HppStructGenerator.cs:110-111 | reading the digits back gives the number |
| Extenders.SkipUnderscores | src/JsonSchemaToHpp/Extenders.cs:37 | the first index at or after i that is not an underscore |
| Extenders.SkipTrailingUnderscores | src/JsonSchemaToHpp/Extenders.cs:37 | the end of the prefix once its trailing underscores are dropped |
| Extenders.TrimUnderscoresSpec | src/JsonSchemaToHpp/Extenders.cs:37 | Trim('_') keeps a contiguous piece of its input with no underscore at either end |
| Extenders.ToSnakeCase | src/JsonSchemaToHpp/Extenders.cs:19-38 | the loop with the `wasUnderscore` flag, then Trim('_'), computes the as-written snake-case function |
| Extenders.SnakeCaseDoubleUnderscore | src/JsonSchemaToHpp/Extenders.cs:28-35 | as written, "a_B" becomes "a__b" although multiple underscores are not allowed |
| Extenders.SnakeRawShape | src/JsonSchemaToHpp/Extenders.cs:25-36 | the corrected loop emits only lower-case letters and underscores, never two underscores in a row, and no leading underscore after a separator |
| Extenders.SnakeCaseShape | src/JsonSchemaToHpp/Extenders.cs:19-38 | a snake-case name is lower-case letters and underscores, neither starts nor ends with '_', and has no double '_' |
| Extenders.SnakeRawAgrees | src/JsonSchemaToHpp/Extenders.cs:25-36 | the as-written and corrected loops agree on every name in which no upper-case letter follows a separator |
| Extenders.DoesAgreeSpec | src/JsonSchemaToHpp/Extenders.cs:72-86 | Undefined agrees only with a missing kind; a number agrees with Number and Integer; every other value kind agrees exactly with its namesake |
| Extenders.ForEachFirstLast | src/JsonSchemaToHpp/Extenders.cs:88-97 | one call per element, in order; only the first is flagged first and only the last flagged last |
| Extenders.ForEachIndexed | src/JsonSchemaToHpp/Extenders.cs:99-108 | one call per element, in order, with its index |
| ICppSchema.FieldNameSpec | src/JsonSchemaToHpp/CppSchemaBase.cs:22-24 | method and field names exist exactly when the property name does; the field name is "m_" followed by the snake-case method name |
| CppArraySchema.ValidateJsonSchema | src/JsonSchemaToHpp/CppArraySchema.cs:21-26 | succeeds exactly when there is an item schema with a kind, and yields that kind; otherwise a SchemaException |
| CppArraySchema.ParseItems | src/JsonSchemaToHpp/CppArraySchema.cs:74-75 | one literal per element, in input order; fails exactly when some element fails, with that element's failure |
| CppArraySchema.ParseOverride | src/JsonSchemaToHpp/CppArraySchema.cs:54-79 | undefined gives "{}"; a non-array or any element of a disagreeing kind is a FormatException; a non-primitive item kind is NotSupported; otherwise "{" + elements joined by ", " + "}" |
| CppArraySchema.IntegerArrayLiteral | src/JsonSchemaToHpp/CppArraySchema.cs:68-76 | the integer array [1, -2] gives the literal {1, -2} |
| CppArraySchema.SizeClauses | src/JsonSchemaToHpp/CppArraySchema.cs:32-36 | one clause per present bound, minItems first and maxItems last |
| CppArraySchema.ItemClauseAsWrittenBreaksNesting | src/JsonSchemaToHpp/CppArraySchema.cs:44-46 | as written, a nested loop's `{{` line becomes a lone `{`, which a later String.Format rejects |
| CppArraySchema.ItemClauseSpec | src/JsonSchemaToHpp/CppArraySchema.cs:45-46 | the corrected item clause is one tab deeper and remains a one-parameter format that yields the item's clause for `x` |
| CppArraySchema.MoreValidationFormat | src/JsonSchemaToHpp/CppArraySchema.cs:28-52 | the size clauses come first; if the item schema validates, a loop header, `{{`, each item clause one tab deeper, then the closing line; fails only on an item clause that cannot be formatted |
| CppStringSchema.ParseOverride | src/JsonSchemaToHpp/CppStringSchema.cs:62-69 | undefined and null give "\"\""; a string keeps its raw text; anything else is a FormatException |
| CppStringSchema.MoreValidationFormat | src/JsonSchemaToHpp/CppStringSchema.cs:49-60 | one clause per present bound, minLength first and maxLength last |
| CppStringSchema.UnquoteSpec | src/JsonSchemaToHpp/CppStringSchema.cs:40-43 | a code shorter than two characters or with an all-whitespace inside fails; otherwise the value is the non-empty trimmed inside |
| CppStringSchema.UnquotePermissibleValues | src/JsonSchemaToHpp/CppStringSchema.cs:37-45 | succeeds exactly when every code unquotes, giving the unquoted values in order; a failure is a SchemaException |
| CppStringSchema.Construct | src/JsonSchemaToHpp/CppStringSchema.cs:25-47 | includes or inherits fail; without hard-coding nothing changes; hard-coding needs at least one value and sets pass-by-value, code generation on and validation off, with every value unquoted in order |
| CppStringSchema.InvalidateOverride | src/JsonSchemaToHpp/CppStringSchema.cs:76-86 | succeeds exactly when there is a namespace and no value's snake-case name is reserved; adds no warnings |
| CppObjectSchema.ParseOverride | src/JsonSchemaToHpp/CppObjectSchema.cs:104-110 | undefined, and only undefined, gives "{}"; an object, and only an object, is NotSupported; anything else is a FormatException |
| CppObjectSchema.TrimTemplates | src/JsonSchemaToHpp/CppObjectSchema.cs:38-44 | one trimmed clone per template, in order |
| CppObjectSchema.TrimmedInheritEntry | src/JsonSchemaToHpp/CppObjectSchema.cs:59 | a base class survives exactly when it is present and its name is not blank, and is then trimmed |
| CppObjectSchema.TrimInherits | src/JsonSchemaToHpp/CppObjectSchema.cs:54-60 | one trimmed entry per base class, in order |
| CppObjectSchema.RequiredOf | src/JsonSchemaToHpp/CppObjectSchema.cs:78-82 | the required properties only, no more of them than there are properties |
| CppObjectSchema.OptionalOf | src/JsonSchemaToHpp/CppObjectSchema.cs:83-87 | the optional properties only, no more of them than there are properties |
| CppObjectSchema.SplitCounts | src/JsonSchemaToHpp/CppObjectSchema.cs:77-87 | CountRequired + CountOptional equals the number of properties, and the two groups together are a permutation of the properties |
| CppObjectSchema.SplitMembers | src/JsonSchemaToHpp/CppObjectSchema.cs:77-87 | every property lands in exactly the groups it belongs to, and nothing else does |
| CppObjectSchema.Placed | src/JsonSchemaToHpp/CppObjectSchema.cs:77-87 | the corrected placement: all required properties in declared order, then all optional ones in declared order |
| CppObjectSchema.Reverse | src/JsonSchemaToHpp/CppObjectSchema.cs:80 | the reversal keeps the length |
| CppObjectSchema.ReverseAppendOne | src/JsonSchemaToHpp/CppObjectSchema.cs:80 | reversing a list with one more element puts that element first |
| CppObjectSchema.PlacedAsWrittenReverses | src/JsonSchemaToHpp/CppObjectSchema.cs:78-87 | as written, the property list is the required properties in reversed order, then the optional ones in order |
| CppObjectSchema.RequiredOrderExample | src/JsonSchemaToHpp/CppObjectSchema.cs:78-82 | two required properties come out as [second, first] as written and [first, second] when corrected |
| CppObjectSchema.PropertyWarningsSpec | src/JsonSchemaToHpp/CppObjectSchema.cs:153-160 | a warning is issued for exactly the inherited properties that require validation, and nothing else |
| CppObjectSchema.PropertyWarningsStep | src/JsonSchemaToHpp/CppObjectSchema.cs:153-160 | the warnings grow by at most one per property, in property order |
| CppObjectSchema.InvalidateTemplates | src/JsonSchemaToHpp/CppObjectSchema.cs:129-136 | succeeds exactly when every template has a key and a name |
| CppObjectSchema.InvalidateIncludes | src/JsonSchemaToHpp/CppObjectSchema.cs:138-142 | succeeds exactly when every include has a header |
| CppObjectSchema.InvalidateInherits | src/JsonSchemaToHpp/CppObjectSchema.cs:144-148 | succeeds exactly when no base class is empty |
| CppObjectSchema.InvalidateProperties | src/JsonSchemaToHpp/CppObjectSchema.cs:150-161 | fails on zero properties or an inherited property with a non-trivial default; otherwise returns the inherited-validation warnings |
| CppObjectSchema.Invalidate | src/JsonSchemaToHpp/CppObjectSchema.cs:117-127 | succeeds exactly when the namespace, templates, includes, base classes, properties and nested definitions are all acceptable; the warnings are its own, then each definition's |
| CppObjectSchema.InvalidateDefinitions | src/JsonSchemaToHpp/CppObjectSchema.cs:163-170 | succeeds exactly when every nested definition is valid, and collects their warnings in order |
| CppSchemaBase.TrimNullifyTrimmed | src/JsonSchemaToHpp/CppSchemaBase.cs:69-74 | a name that survives `?.Trim().Nullify()` is non-empty with no whitespace at either end |
| CppSchemaBase.Parse | src/JsonSchemaToHpp/CppSchemaBase.cs:168 | fails exactly when the kind's ParseOverride fails; a literal it returns is trimmed and non-empty |
| CppSchemaBase.TypenameOf | src/JsonSchemaToHpp/CppSchemaBase.cs:73 | the trimmed "hppTypename" when present, otherwise the kind's trimmed default typename |
| CppSchemaBase.ParsePermissibleValues | src/JsonSchemaToHpp/CppSchemaBase.cs:85 | one parsed code per permissible value, in order; fails exactly when some value fails, with its failure |
| CppSchemaBase.PermissibleCodes | src/JsonSchemaToHpp/CppSchemaBase.cs:82-87 | a present but empty list of permissible values is a SchemaException; otherwise one code per value |
| CppSchemaBase.TrimIncludes | src/JsonSchemaToHpp/CppSchemaBase.cs:91-101 | the trimmed includes in order; an include whose header is blank is a SchemaException |
| CppSchemaBase.TrimExtensions | src/JsonSchemaToHpp/CppSchemaBase.cs:117-122 | one trimmed extension per entry, a null one becoming the empty string |
| CppSchemaBase.InvalidClauses | src/JsonSchemaToHpp/CppSchemaBase.cs:141-146 | one clause per invalid-format condition |
| CppSchemaBase.InvalidFormatClauses | src/JsonSchemaToHpp/CppSchemaBase.cs:141-146 | succeeds exactly when no condition is blank, giving one `if (...) return` clause per condition in order; a blank one is a SchemaException |
| CppSchemaBase.EnumTests | src/JsonSchemaToHpp/CppSchemaBase.cs:150-151 | one membership test per permissible value code |
| CppSchemaBase.EnumClause | src/JsonSchemaToHpp/CppSchemaBase.cs:148-159 | the hard-coded enumeration clause is built from the membership tests of the codes, in order |
| CppSchemaBase.Header | src/JsonSchemaToHpp/CppSchemaBase.cs:62-101 | a kind mismatch or the ignore flag fails; a missing typename fails; a "::"-qualified typename with a namespace fails; an empty permissible-value list fails; otherwise the trimmed names, typename, codes and includes are set and the node invariant holds |
| CppSchemaBase.DefaultValue | src/JsonSchemaToHpp/CppSchemaBase.cs:130-135 | the default is the schema's own code or the parsed "default"; it is trivial exactly when it equals the parse of no value; only a trivial default has the kind's condition format; an empty trivial literal is an ApplicationException |
| CppSchemaBase.ValidationClauses | src/JsonSchemaToHpp/CppSchemaBase.cs:137-161 | clauses in order: invalid formats, then the enumeration clause, then the kind's own; a blank condition fails |
| CppSchemaBase.Prepare | src/JsonSchemaToHpp/CppSchemaBase.cs:62-135 | every failure of the header checks, and on success the common fields, the default value and the node invariant |
| CppSchemaBase.WithParts | src/JsonSchemaToHpp/CppSchemaBase.cs:103-135 | adding definitions, extensions and defaults to a checked header gives the common fields and keeps the node invariant |
| CppSchemaBase.WithFormats | src/JsonSchemaToHpp/CppSchemaBase.cs:161 | setting the validation clauses keeps the common fields and the node invariant |
| CppSchemaBase.Construct | src/JsonSchemaToHpp/CppSchemaBase.cs:62-162 | the common constructor fails on kind mismatch, ignore, missing or doubly qualified typename, empty permissible values or a blank condition; on success the fields, default and clause order are as the schema says and the node invariant holds |
| CppSchemaBase.FreshNodeValid | src/JsonSchemaToHpp/CppSchemaBase.cs:62-101 | a freshly constructed schema meets the invariant every converted node keeps |
| CppSchemaBase.StringNodeValid | src/JsonSchemaToHpp/CppStringSchema.cs:25-47 | a string schema that is not hard-coded keeps the node invariant and its name and required flag |
| CppSchemaBase.ToCppType | src/JsonSchemaToHpp/JsonSchema.cs:35-46 | a schema without a kind is NotImplemented; the ignore flag fails; a result has the declared kind, keeps the node invariant, is not yet required and carries the trimmed property name |
| CppSchemaBase.NewObjectSchema | src/JsonSchemaToHpp/CppObjectSchema.cs:33-102 | kind mismatch or ignore fails; a result is a valid object node with one converted property per entry and the trimmed templates and base classes in order; the result is the object conversion of the schema: the common fields (names, typename, namespace, includes, extensions, default) as the common constructor sets them |
| CppSchemaBase.ConvertObjectParts | src/JsonSchemaToHpp/CppObjectSchema.cs:38-101 | the templates and base classes are trimmed in order, the properties have the object shape, and each definition is a valid object node |
| CppSchemaBase.ObjectNodeValid | src/JsonSchemaToHpp/CppObjectSchema.cs:62-101 | an object node built from shaped properties and valid definitions keeps the node invariant |
| CppSchemaBase.ConvertProperty | src/JsonSchemaToHpp/CppObjectSchema.cs:72-75 | a null property fails; a result is a valid named node, required exactly when its key is listed in "required" |
| CppSchemaBase.ConvertProperties | src/JsonSchemaToHpp/CppObjectSchema.cs:62-91 | the loop converts every property, marks exactly the listed ones required, and ends with the required ones first; any null property makes it fail |
| CppSchemaBase.MarkRequired | src/JsonSchemaToHpp/CppObjectSchema.cs:75 | marking a property required keeps the node invariant |
| CppSchemaBase.AnyStep | src/JsonSchemaToHpp/CppObjectSchema.cs:89 | the object requires validation exactly when one of its properties does |
| CppSchemaBase.PlacedStep | src/JsonSchemaToHpp/CppObjectSchema.cs:78-87 | one loop step places the item and increments exactly one of the two counts |
| CppSchemaBase.Fold | src/JsonSchemaToHpp/CppObjectSchema.cs:70-90 | after the loop, CountRequired + CountOptional equals the number of properties |
| CppSchemaBase.FoldIsListOf | src/JsonSchemaToHpp/CppObjectSchema.cs:70-90 | the loop's final state is the required properties then the optional ones, with their counts and whether any requires validation |
| CppSchemaBase.FoldShape | src/JsonSchemaToHpp/CppObjectSchema.cs:70-90 | the loop's final state has the object's property shape |
| CppSchemaBase.PlacedOrder | src/JsonSchemaToHpp/CppObjectSchema.cs:77-87 | the placed properties are the given ones; the property at index k is required exactly when k < CountRequired |
| CppSchemaBase.PlacedAny | src/JsonSchemaToHpp/CppObjectSchema.cs:89 | placing the properties does not change whether any requires validation |
| CppSchemaBase.PlacedProperties | src/JsonSchemaToHpp/CppObjectSchema.cs:77-87 | placed properties stay converted and named |
| CppSchemaBase.PlacedShape | src/JsonSchemaToHpp/CppObjectSchema.cs:77-87 | the placed list has the object's property shape and the right length |
| CppSchemaBase.ConvertObjectDefinitions | src/JsonSchemaToHpp/CppObjectSchema.cs:93-101 | every definition with a typename goes through the object constructor, in order: a typed definition that is not declared an object, or is ignored, makes the conversion fail (the kind and ignore checks of the common constructor); on success node k is the object conversion of the k-th typed definition, with its names, typename, templates, base classes and one property per declared property |
| CppSchemaBase.ObjectConverted | src/JsonSchemaToHpp/CppObjectSchema.cs:33-102 | the node assembled from the common part and the converted templates, base classes, properties and definitions is the object conversion of its schema |
| CppSchemaBase.ObjectConversionsOnly | src/JsonSchemaToHpp/CppSchemaBase.cs:62-66 | a list of object conversions holds only schemas declared objects and not ignored, and only valid object nodes |
| CppSchemaBase.ConvertDefinitions | src/JsonSchemaToHpp/CppSchemaBase.cs:103-113 | every present, typed and not ignored definition is converted in order, to a valid node of its declared kind |
| CppSchemaBase.InvalidateOverride | src/JsonSchemaToHpp/CppSchemaBase.cs:188-192 | a string schema needs a namespace and no reserved value name; other kinds accept; never a warning |
| CppSchemaBase.Invalidate | src/JsonSchemaToHpp/CppSchemaBase.cs:172-184 | the loop over the definitions, then the kind's own check, computes the specified outcome |
| CppSchemaBase.InvalidateResultSpec | src/JsonSchemaToHpp/CppSchemaBase.cs:172-184 | succeeds exactly when code generation is supported and every definition and the kind accept; a success carries no warning; a failure is NotSupported or a SchemaException |
| CppSchemaBase.DefinitionsResultSpec | src/JsonSchemaToHpp/CppSchemaBase.cs:177-181 | the definitions pass exactly when each is accepted, with no warning |
| CppSchemaBase.OnlyStringsInvalidate | src/JsonSchemaToHpp/CppSchemaBase.cs:174 | of the converted schemas only a hard-coded string enumeration with a namespace and at least one value passes |
| HppGenerator.PrecedesIrreflexive | src/JsonSchemaToHpp/HppGenerator.cs:42 | no header sorts before itself |
| HppGenerator.PrecedesTransitive | src/JsonSchemaToHpp/HppGenerator.cs:42 | the header order is transitive |
| HppGenerator.PrecedesTotal | src/JsonSchemaToHpp/HppGenerator.cs:42 | any two distinct headers are ordered one way or the other |
| HppGenerator.PrecedesOrder | src/JsonSchemaToHpp/HppGenerator.cs:42 | the header order is a strict total order, as a SortedSet needs |
| HppGenerator.InsertSpec | src/JsonSchemaToHpp/HppGenerator.cs:43-44 | adding one include keeps the set sorted, and adds that include exactly when its header is new |
| HppGenerator.InsertKeys | src/JsonSchemaToHpp/HppGenerator.cs:43-44 | after adding, a header is present exactly when it was before or is the added one's |
| HppGenerator.UnionWithSpec | src/JsonSchemaToHpp/HppGenerator.cs:43-44 | UnionWith keeps the set sorted and adds exactly the first include of each header not yet present |
| HppGenerator.UnionWithConcat | src/JsonSchemaToHpp/HppGenerator.cs:43-44 | two UnionWith calls equal one call on the concatenation |
| HppGenerator.IncludeSetSpec | src/JsonSchemaToHpp/HppGenerator.cs:42-44 | the include set is sorted by header with no header twice, and holds, for each header, the first include naming it, the schema's own before the extra ones |
| HppGenerator.MaxWidthSpec | src/JsonSchemaToHpp/HppGenerator.cs:50-59 | the width bounds every commented header and, when positive, equals one of them |
| HppGenerator.BlockSizes | src/JsonSchemaToHpp/HppGenerator.cs:51-69 | the first block has one line per uncommented include and the second one per commented include |
| HppGenerator.IncludeLinesSpec | src/JsonSchemaToHpp/HppGenerator.cs:48-72 | uncommented includes first, a blank line exactly when both blocks are non-empty, then the commented ones; one line per include |
| HppGenerator.NoCommentedIfNarrow | src/JsonSchemaToHpp/HppGenerator.cs:62 | with non-empty headers, a width of 0 means no include has a comment |
| HppGenerator.CommentsAligned | src/JsonSchemaToHpp/HppGenerator.cs:68 | every comment in the second block starts in the same column, after the widest header |
| HppGenerator.MakeIncludes | src/JsonSchemaToHpp/HppGenerator.cs:40-73 | a fresh builder at level 0 holding exactly the include lines of the include set; fails with NullReference only when a commented include has no header |
| HppGenerator.AppendIncludes | src/JsonSchemaToHpp/HppGenerator.cs:48-72 | the two blocks appended to an empty builder, or NullReference |
| HppGenerator.AppendPlain | src/JsonSchemaToHpp/HppGenerator.cs:49-59 | the first loop appends the uncommented includes in order and computes their count and the widest commented header |
| HppGenerator.AppendCommented | src/JsonSchemaToHpp/HppGenerator.cs:65-69 | the second loop appends each commented include padded to the width; it fails exactly when one has no header |
| HppGenerator.MakeGenerator | src/JsonSchemaToHpp/HppGenerator.cs:25-38 | only object and string schemas get a generator (NotSupported otherwise); it succeeds exactly when construction does, with the schema's warnings then each definition's |
| HppGenerator.NewGenerator | src/JsonSchemaToHpp/HppGenerator.cs:25-38 | invalidation first, then each definition's generator in order; the warnings and builders are those of the construction |
| HppGenerator.Check | src/JsonSchemaToHpp/HppGenerator.cs:28 | invalidation with the generator's reserved names: the object checks for a struct, the common checks for an enum |
| HppGenerator.StructsRejectedAsWritten | src/JsonSchemaToHpp/HppGenerator.cs:28 | as written, a well-formed object schema is refused with NotSupported: the generic generator (`T : ICppSchema`) resolves its two-argument `Invalidate` against the interface, whose only implementation is `CppSchemaBase.Invalidate`, and object schemas do not support code generation |
| HppGenerator.CheckedSpec | src/JsonSchemaToHpp/CppObjectSchema.cs:117-127 | the corrected check accepts an object schema exactly when the object checks do, fails only with their error, and leaves every other kind as written |
| HppGenerator.AddDefinition | src/JsonSchemaToHpp/HppGenerator.cs:32-37 | one definition's generator and Make add its warnings and blocks before the later definitions'; a failure is the construction's failure |
| HppGenerator.PrependAssociates | src/JsonSchemaToHpp/HppGenerator.cs:32-37 | prepending two pieces equals prepending their concatenation |
| HppGenerator.PrependStep | src/JsonSchemaToHpp/HppGenerator.cs:32-37 | one step of the definitions loop regroups into the accumulated warnings and blocks |
| HppGenerator.LinesOfAppend | src/JsonSchemaToHpp/HppGenerator.cs:35 | the lines of concatenated builder lists are the concatenated lines |
| HppGenerator.Make | src/JsonSchemaToHpp/HppGenerator.cs:77-81 | every definition builder, then the node's own blocks; the builders are the generator's or fresh |
| HppGenerator.MakeOwn | src/JsonSchemaToHpp/HppGenerator.cs:80 | the node's own blocks, or the failure of building them |
| HppGenerator.UnitTextLines | src/JsonSchemaToHpp/HppGenerator.cs:83-114 | the text is the rendered unit (banner, includes, blocks, closing guard), or the first failure of the includes or the blocks |
| HppGenerator.ToText | src/JsonSchemaToHpp/HppGenerator.cs:83-114 | with the clock and GUID as parameters, the text is the specified unit |
| HppGenerator.Assemble | src/JsonSchemaToHpp/HppGenerator.cs:85-113 | the banner, the includes, the joined blocks and the closing guard, rendered |
| HppGenerator.AppendTail | src/JsonSchemaToHpp/HppGenerator.cs:107-111 | the joined blocks, a blank line and `#endif // guard` are appended |
| HppGenerator.UnitGuarded | src/JsonSchemaToHpp/HppGenerator.cs:92-111 | the header opens the guard on its second and third lines, lists the includes right after the banner and closes the guard on its last line |
| HppGenerator.GuardSpec | src/JsonSchemaToHpp/HppGenerator.cs:87-90 | with a hexadecimal GUID, the guard is a macro name: upper-case letters, digits and underscores, not starting with a digit |
| HppGenerator.JoinThree | src/JsonSchemaToHpp/HppGenerator.cs:87 | joining three parts puts the separator between each pair |
| HppEnumGenerator.MakeStructBody | src/JsonSchemaToHpp/HppEnumGenerator.cs:31-133 | a fresh builder at level 0 holding the namespace, the forward declarations, the struct with its parse, instances, constructors, to_string_view, operators and serializers, then the static instance definitions |
| HppEnumGenerator.AppendOpening | src/JsonSchemaToHpp/HppEnumGenerator.cs:35-50 | the namespace line and its brace, the optional description, the forward declarations; the namespace block stays open at level 1 |
| HppEnumGenerator.AppendStruct | src/JsonSchemaToHpp/HppEnumGenerator.cs:53-121 | the struct's lines in order: head, one parse line per value, the declarations, one case per value, the tail; the level is restored |
| HppEnumGenerator.MakeNoexceptJson | src/JsonSchemaToHpp/HppEnumGenerator.cs:135-166 | a fresh builder holding the serializer specialisation whose try_get parses and checks the discriminant |
| HppEnumGenerator.MakeHash | src/JsonSchemaToHpp/HppEnumGenerator.cs:168-198 | a fresh builder holding the std::hash specialisation over the discriminant |
| HppEnumGenerator.MakeInner | src/JsonSchemaToHpp/HppEnumGenerator.cs:200-205 | three fresh builders: the struct body, the serializer and the hash, in that order |
| HppEnumGenerator.ParseIntoSpec | src/JsonSchemaToHpp/HppEnumGenerator.cs:69-72 | with no early exit, parse leaves the position of the last value equal to the text, plus one, and otherwise keeps the discriminant it had |
| HppEnumGenerator.RoundTrip | src/JsonSchemaToHpp/HppEnumGenerator.cs:71-94 | with distinct values, parsing the i-th value gives discriminant i + 1, which to_string_view maps back to the i-th value |
| HppEnumGenerator.LastMatchWins | src/JsonSchemaToHpp/HppEnumGenerator.cs:71-72 | with a repeated value, the text parses to its last position |
| HppEnumGenerator.TryGetAsWrittenSpec | src/JsonSchemaToHpp/HppEnumGenerator.cs:153-159 | as generated, try_get succeeds exactly when the text is a value or the target already held a non-zero discriminant |
| HppEnumGenerator.StaleTryGet | src/JsonSchemaToHpp/HppEnumGenerator.cs:153-159 | "blue" is not among ["red"], yet try_get into a target holding "red" succeeds |
| HppEnumGenerator.TryGetSpec | src/JsonSchemaToHpp/HppEnumGenerator.cs:153-159 | parsing from the zero discriminant, try_get succeeds exactly on the values, and to_string_view gives the text back |
| HppEnumGenerator.GeneratedDiscriminants | src/JsonSchemaToHpp/HppEnumGenerator.cs:71-128 | the i-th parse line assigns i + 1, the case for i + 1 returns the i-th literal, and the i-th static instance is declared and initialised to {nullptr, i + 1} |
| HppStructGenerator.MoreIncludesSpec | src/JsonSchemaToHpp/HppStructGenerator.cs:9-37 | the seven standard includes always come first; <concepts> and <optional> are added exactly when the struct validates itself |
| HppStructGenerator.MakeNames | src/JsonSchemaToHpp/HppStructGenerator.cs:46-65 | the loop over the templates builds the names and definitions whose joins give the template signature, the templated name and the qualified name |
| HppStructGenerator.NamesSpec | src/JsonSchemaToHpp/HppStructGenerator.cs:57-64 | no signature exactly when there are no templates, and then the struct is named by its typename; one template gives `template <key name>` and `Typename<name>`; the qualified name is the namespace, `::` and the templated name |
| HppStructGenerator.OwnSpec | src/JsonSchemaToHpp/HppStructGenerator.cs:221-223 | the own properties are exactly those of the list that are not inherited (the same filter at lines 120, 152 and 356) |
| HppStructGenerator.ListLinesSpec | src/JsonSchemaToHpp/HppStructGenerator.cs:176-181 | a comma-separated list line sits at the given level; the first starts with ": ", every line but the last ends with a comma, and the last is the item itself (the inheritance list at lines 328-333 is laid out the same way) |
| HppStructGenerator.AppendAliases | src/JsonSchemaToHpp/HppStructGenerator.cs:77-79 | one `using alias = name;` per template with an alias, in order, and nothing else |
| HppStructGenerator.MakeTypedefs | src/JsonSchemaToHpp/HppStructGenerator.cs:67-88 | a fresh builder at level 0 holding the self typedef, one typedef per base class, the aliases and one typedef per property |
| HppStructGenerator.TypedefSpec | src/JsonSchemaToHpp/HppStructGenerator.cs:84-86 | every property, inherited ones included, has its `_type` typedef, in order, after at least three fixed lines and one per base class |
| HppStructGenerator.AppendErrorCalls | src/JsonSchemaToHpp/HppStructGenerator.cs:106-117 | one four-line block per base class with an error message call, naming its index, and none for the others |
| HppStructGenerator.AppendClauses | src/JsonSchemaToHpp/HppStructGenerator.cs:121-122 | each validation format formatted with the field in turn; the first format that fails ends the loop with its error and nothing else is promised |
| HppStructGenerator.AppendPropertyClauses | src/JsonSchemaToHpp/HppStructGenerator.cs:119-122 | the clauses of every own validated property in order, or the first formatting error |
| HppStructGenerator.AppendPropertyClause | src/JsonSchemaToHpp/HppStructGenerator.cs:120-122 | an inherited or unvalidated property adds nothing; otherwise its clauses, or their formatting error |
| HppStructGenerator.MakeNoexceptValidation | src/JsonSchemaToHpp/HppStructGenerator.cs:90-128 | a fresh builder holding `error_message`, or the formatting error of a validation clause |
| HppStructGenerator.ValidationSpec | src/JsonSchemaToHpp/HppStructGenerator.cs:90-128 | nothing is generated unless the struct validates itself; otherwise the function is declared noexcept and ends by returning std::nullopt; a failure is always the error of one own validated property's clauses |
| HppStructGenerator.RequiredArguments | src/JsonSchemaToHpp/HppStructGenerator.cs:136-153 | for the required properties in order: the default values, the method names, the by-value or by-reference arguments, and the initializers of the own ones |
| HppStructGenerator.BaseConstructorCalls | src/JsonSchemaToHpp/HppStructGenerator.cs:156-168 | the base constructor calls with the default and with the explicit arguments, one per base with an argument format; a format that does not fit the arguments is a FormatException |
| HppStructGenerator.AppendConstructor | src/JsonSchemaToHpp/HppStructGenerator.cs:172-188 | the declaration, the initializer list and the body, which calls validate() when the struct validates itself |
| HppStructGenerator.MakeConstructors | src/JsonSchemaToHpp/HppStructGenerator.cs:133-216 | a fresh builder holding the constructors, or the FormatException of a base constructor format |
| HppStructGenerator.AppendDefaultConstructor | src/JsonSchemaToHpp/HppStructGenerator.cs:171-188 | the default constructor with the default base calls |
| HppStructGenerator.AppendExplicitConstructor | src/JsonSchemaToHpp/HppStructGenerator.cs:192-213 | an empty line, then the explicit constructor with the explicit base calls followed by the own field initializers |
| HppStructGenerator.NoexceptSpec | src/JsonSchemaToHpp/HppStructGenerator.cs:172-199 | both constructors are declared noexcept exactly when the struct does not validate itself |
| HppStructGenerator.ExplicitSpec | src/JsonSchemaToHpp/HppStructGenerator.cs:196 | the constructor with arguments is marked `explicit` exactly when there is one required property |
| HppStructGenerator.BodySpec | src/JsonSchemaToHpp/HppStructGenerator.cs:183-188 | a constructor body calls validate() exactly when the struct validates itself |
| HppStructGenerator.ConstructorsSpec | src/JsonSchemaToHpp/HppStructGenerator.cs:131-216 | the default constructor always comes first; the explicit one follows exactly when some property is required, and it initializes each base with a format and then each own required field |
| HppStructGenerator.MakePropertyAccessors | src/JsonSchemaToHpp/HppStructGenerator.cs:218-249 | a fresh builder holding a getter and a setter for every own property, in order |
| HppStructGenerator.AccessorSpec | src/JsonSchemaToHpp/HppStructGenerator.cs:225-246 | the getter comes first; the setter calls validate() exactly when the property is validated, and otherwise is a single noexcept line |
| HppStructGenerator.OptionalJsonLine | src/JsonSchemaToHpp/HppStructGenerator.cs:285-287 | an optional property gives a single `to_json` line, or the formatting error of its default condition |
| HppStructGenerator.AppendOptionalJson | src/JsonSchemaToHpp/HppStructGenerator.cs:282-288 | the lines of the properties past the required ones in order, or the first formatting error |
| HppStructGenerator.AppendOptionalBlock | src/JsonSchemaToHpp/HppStructGenerator.cs:276-289 | nothing when no property is optional; otherwise the default instance and the optional lines, or a formatting error |
| HppStructGenerator.MakeNlohmannUtils | src/JsonSchemaToHpp/HppStructGenerator.cs:251-300 | a fresh builder holding to_json and from_json, or a formatting error of a default condition |
| HppStructGenerator.OptionalJsonSpec | src/JsonSchemaToHpp/HppStructGenerator.cs:282-288 | with the required properties first, `to_json` writes exactly one line per optional property, in order |
| HppStructGenerator.AppendOpening | src/JsonSchemaToHpp/HppStructGenerator.cs:306-334 | the namespace, the forward declarations of the struct and of its serializers, and the struct's head with its base classes |
| HppStructGenerator.AppendFields | src/JsonSchemaToHpp/HppStructGenerator.cs:355-357 | one field per own property with its default value and optional description comment |
| HppStructGenerator.AppendHead | src/JsonSchemaToHpp/HppStructGenerator.cs:337-357 | the typedefs shifted to level 2, the JSON keys, the friend declarations and the fields |
| HppStructGenerator.AppendExtensions | src/JsonSchemaToHpp/HppStructGenerator.cs:412-416 | nothing without extensions; otherwise an empty line and each extension line |
| HppStructGenerator.AppendInterior | src/JsonSchemaToHpp/HppStructGenerator.cs:337-416 | the struct's interior in order: head, validation, validate(), constructors, accessors, equality, serializers, extensions |
| HppStructGenerator.AssembleStructBody | src/JsonSchemaToHpp/HppStructGenerator.cs:302-424 | a fresh builder at level 0 holding the struct body built around the given parts |
| HppStructGenerator.AppendBlocks | src/JsonSchemaToHpp/HppStructGenerator.cs:306-421 | the namespace block and the struct block, each closed at its own level |
| HppStructGenerator.CloseBlocks | src/JsonSchemaToHpp/HppStructGenerator.cs:417-421 | the struct's closing line at level 1 and the namespace's at level 0, and the level back at 0 |
| HppStructGenerator.MakeStructBody | src/JsonSchemaToHpp/HppStructGenerator.cs:302-424 | a fresh builder holding the namespace with the struct, or the first formatting error of its parts |
| HppStructGenerator.InheritedOmitted | src/JsonSchemaToHpp/HppStructGenerator.cs:355-357 | inherited properties get no field and no initializer; every own property gets exactly one of each, in order (the initializers at line 152) |
| HppStructGenerator.MakeNoexceptJson | src/JsonSchemaToHpp/HppStructGenerator.cs:426-465 | a fresh builder holding the noexcept_json_serializer specialisation |
| HppStructGenerator.TryGetSpec | src/JsonSchemaToHpp/HppStructGenerator.cs:448-456 | try_get reads property i as required exactly when i is below the number of required properties, and as optional otherwise; it checks error_message exactly when the struct validates itself |
| HppStructGenerator.MakeHash | src/JsonSchemaToHpp/HppStructGenerator.cs:467-520 | a fresh builder holding the std::hash specialisation |
| HppStructGenerator.HashSpec | src/JsonSchemaToHpp/HppStructGenerator.cs:493-511 | every property, inherited ones included, gets its own hasher and its own combining line with its index |
| HppStructGenerator.ShiftAsWrittenCollides | src/JsonSchemaToHpp/HppStructGenerator.cs:495-507 | the generated shifts use sizeof(std::size_t), a count of bytes, as a count of bits: every shift is below 8, and with 9 fields, fields 0 and 8 get the same shift |
| HppStructGenerator.Shift | src/JsonSchemaToHpp/HppStructGenerator.cs:495-507 | the shift spread over the 64 bits of the result stays below 64 |
| HppStructGenerator.ShiftDistinct | src/JsonSchemaToHpp/HppStructGenerator.cs:495-507 | spread over 64 bits, the fields of a struct with at most 64 fields get pairwise distinct shifts |
| HppStructGenerator.MakePieces | src/JsonSchemaToHpp/HppStructGenerator.cs:524-526 | the struct's builder, then the serializer's and, unless the hash is skipped, the hash's |
| HppStructGenerator.MakeInner | src/JsonSchemaToHpp/HppStructGenerator.cs:522-527 | two or three fresh builders, the hash's left out exactly when SkipHash is set, or the struct body's formatting error |
| Fractions.Regularized | src/ropufu/algebra/fraction.hpp:33-41 | with a non-zero denominator the result has a positive denominator and the same value; a non-negative denominator is left alone |
| Fractions.EqualMeansSameValue | src/ropufu/algebra/fraction.hpp:244-245 | the cross-multiplied `==` holds exactly when both fractions stand for the same rational number |
| Fractions.LessMeansSmallerValue | src/ropufu/algebra/fraction.hpp:238-242 | with positive denominators, the cross-multiplied `<` and `<=` order fractions by value |
| Fractions.IntegerComparisons | src/ropufu/algebra/fraction.hpp:226-236 | comparing a fraction with the integer k, on either side, is comparing it with k/1 |
| Fractions.OneThirdPlusOneSixth | src/tests/algebra/fraction.hpp:126 | 1/3 + 1/6 is stored as 9/18, is `==` to 1/2 and simplifies to 1/2 |
| Fractions.SimplifiedSpec | src/ropufu/algebra/fraction.hpp:104-109 | dividing both fields by their gcd keeps the value and a positive denominator |
| Fractions.ComplementSpec | src/ropufu/algebra/fraction.hpp:112-115 | subtract_from_one gives the value 1 - x |
| Fractions.InverseSpec | src/ropufu/algebra/fraction.hpp:120-125 | inverting a non-zero fraction gives a positive denominator and the reciprocal value |
| Fractions.SumSpec | src/ropufu/algebra/fraction.hpp:158-167 | `+=` with a fraction, by either branch, gives the sum of the values and keeps the denominator positive |
| Fractions.DifferenceSpec | src/ropufu/algebra/fraction.hpp:172-181 | `-=` with a fraction, by either branch, gives the difference of the values and keeps the denominator positive |
| Fractions.ProductSpec | src/ropufu/algebra/fraction.hpp:185-190 | `*=` with a fraction gives the product of the values and keeps the denominator positive |
| Fractions.QuotientSpec | src/ropufu/algebra/fraction.hpp:201-208 | `/=` by a non-zero fraction gives a positive denominator and a value that, multiplied by the divisor, is the dividend |
| Fractions.IntegerSpec | src/ropufu/algebra/fraction.hpp:157-184 | `+=`, `-=` and `*=` with an integer give the sum, the difference and the product of the values |
| Fractions.IntegerMinusSpec | src/ropufu/algebra/fraction.hpp:171 | the free `k - x` keeps the denominator positive and gives k minus the value |
| Fractions.QuotientIntegerSpec | src/ropufu/algebra/fraction.hpp:193-199 | `/=` by a non-zero integer gives a positive denominator and the quotient of the values |
| Fractions.ToIntegerTruncates | src/ropufu/algebra/fraction.hpp:151-154 | the conversion to the integer type rounds toward zero: q * d is the multiple of the denominator nearest the numerator on the side of zero |
| Fractions.ZeroDenominatorBreaksEquality | src/ropufu/algebra/fraction.hpp:95-101 | the stored 0/0 is `==` to 1/1 and to 2/1, which are not `==` to each other (`==` at line 244) |
| Fractions.EqualTransitive | src/ropufu/algebra/fraction.hpp:244 | among fractions with non-zero denominators, `==` is transitive |
| Fractions.Fraction.constructor | src/ropufu/algebra/fraction.hpp:71-81 | the default fraction is 0/1, with a positive denominator |
| Fractions.Fraction.FromInteger | src/ropufu/algebra/fraction.hpp:86-90 | the conversion from an integer k is k/1, whose value is k |
| Fractions.Fraction.Initialized | src/ropufu/algebra/fraction.hpp:95-96 | the member initializers store both arguments as given |
| Fractions.Fraction.FromRatioAsWritten | src/ropufu/algebra/fraction.hpp:95-101 | a zero denominator sets invalid_argument and leaves n/0 stored; otherwise the fraction is regularized and has the value n / d |
| Fractions.Fraction.FromRatio | src/ropufu/algebra/fraction.hpp:95-101 | the same, except that a zero denominator leaves 0/1, so the denominator is positive on every path |
| Fractions.Fraction.Regularize | src/ropufu/algebra/fraction.hpp:33-41 | the object's state becomes the regularized ratio |
| Fractions.Fraction.Negate | src/ropufu/algebra/fraction.hpp:45-57 | only the numerator's sign flips, so the value is negated |
| Fractions.Fraction.Simplify | src/ropufu/algebra/fraction.hpp:104-109 | the state becomes the simplified ratio |
| Fractions.Fraction.SubtractFromOne | src/ropufu/algebra/fraction.hpp:112-115 | the state becomes 1 - x over the same denominator |
| Fractions.Fraction.Invert | src/ropufu/algebra/fraction.hpp:120-125 | a zero fraction reports function_not_supported and is left alone; otherwise the state becomes the inverse |
| Fractions.Fraction.SetNumerator | src/ropufu/algebra/fraction.hpp:130 | only the numerator changes |
| Fractions.Fraction.SetDenominator | src/ropufu/algebra/fraction.hpp:137-142 | zero reports function_not_supported and changes nothing; otherwise the new denominator is stored and regularized, so it is positive |
| Fractions.Fraction.AddInteger | src/ropufu/algebra/fraction.hpp:157 | the state becomes x + k |
| Fractions.Fraction.Add | src/ropufu/algebra/fraction.hpp:158-167 | the state becomes the sum of the old states, also when the operand is the fraction itself |
| Fractions.Fraction.SubtractInteger | src/ropufu/algebra/fraction.hpp:170 | the state becomes x - k |
| Fractions.Fraction.Subtract | src/ropufu/algebra/fraction.hpp:172-181 | the state becomes the difference of the old states, also when the operand is the fraction itself |
| Fractions.Fraction.MultiplyInteger | src/ropufu/algebra/fraction.hpp:184 | the state becomes x * k |
| Fractions.Fraction.Multiply | src/ropufu/algebra/fraction.hpp:185-190 | the state becomes the product of the old states, also when the operand is the fraction itself |
| Fractions.Fraction.DivideInteger | src/ropufu/algebra/fraction.hpp:193-199 | zero throws logic_error and changes nothing; otherwise the state becomes x / k |
| Fractions.Fraction.DivideAsWritten | src/ropufu/algebra/fraction.hpp:201-208 | a zero divisor throws logic_error and changes nothing; for another fraction the state becomes the quotient, but `x /= x` multiplies the denominator by the already updated numerator |
| Fractions.Fraction.Divide | src/ropufu/algebra/fraction.hpp:201-208 | with the divisor read before anything is written, the state becomes the quotient of the old states, `x /= x` included |
| Fractions.SelfDivisionAsWritten | src/ropufu/algebra/fraction.hpp:201-208 | for x = 2/3, `x /= x` as written stores 6/18, whose value is 1/3, while the quotient x / x is 1 |
| EnumArrays.WithinBoundsCounts | src/ropufu/enum_array.hpp:45-67 | a key is within bounds exactly when its offset from the first key is below the capacity |
| EnumArrays.EnumArray.constructor | src/ropufu/enum_array.hpp:248-249 | a fresh array with one element per key, each holding the given value |
| EnumArrays.EnumArray.Size | src/ropufu/enum_array.hpp:75-78 | the size is the capacity, and it is zero exactly when the enumeration has no keys |
| EnumArrays.EnumArray.Fill | src/ropufu/enum_array.hpp:80 | every element holds the value |
| EnumArrays.EnumArray.At | src/ropufu/enum_array.hpp:98-103 | a key out of range throws out_of_range; any other key reads the element at its offset from the first key |
| EnumArrays.EnumArray.AtPut | src/ropufu/enum_array.hpp:108-113 | a key out of range throws out_of_range and changes nothing; any other key changes exactly its own element |
| EnumArrays.IsZero | src/ropufu/enum_array.hpp:85-90 | true exactly when every element equals the value-initialised one |
| EnumArrays.RaisedLoweredSpec | src/ropufu/enum_array.hpp:337-349 | set raises and unset lowers only the flag they name; every other flag keeps its value |
| EnumArrays.MarkedFromSpec | src/ropufu/enum_array.hpp:193-228 | iterating from a position yields every set flag at or after it, only set flags, in strictly increasing key order |
| EnumArrays.NextMarked | src/ropufu/enum_array.hpp:193-203 | advance_to_true stops at the first set flag at or after the position, or at past-the-last when there is none |
| EnumArrays.SkipUnmarked | src/ropufu/enum_array.hpp:193-203 | skipping unset flags does not change the keys still to be yielded |
| EnumArrays.Flags.constructor | src/ropufu/enum_array.hpp:300 | a fresh set of flags with none set |
| EnumArrays.Flags.FromList | src/ropufu/enum_array.hpp:301-309 | a key in range is set exactly when it is listed; listed keys out of range are skipped |
| EnumArrays.Flags.Has | src/ropufu/enum_array.hpp:330-335 | true exactly when the key is in range and its flag is set |
| EnumArrays.Flags.Set | src/ropufu/enum_array.hpp:337-342 | the flags become those with the named flag raised, if it is in range |
| EnumArrays.Flags.Unset | src/ropufu/enum_array.hpp:344-349 | the flags become those with the named flag lowered, if it is in range |
| EnumArrays.Flags.OrAssign | src/ropufu/enum_array.hpp:352-356 | each flag becomes the "or" of both old flags, also when the operand is the set itself |
| EnumArrays.Flags.AndAssign | src/ropufu/enum_array.hpp:359-363 | each flag becomes the "and" of both old flags |
| EnumArrays.Flags.XorAssign | src/ropufu/enum_array.hpp:366-370 | each flag becomes the "exclusive or" of both old flags |
| EnumArrays.Flags.Marked | src/ropufu/enum_array.hpp:206-228 | a range-based for from begin() to end() yields exactly the set flags, in key order (begin and end at lines 327-328) |
| EnumArrays.FlagIterator.constructor | src/ropufu/enum_array.hpp:206-211 | the iterator starts on the first set flag at or after the given position |
| EnumArrays.FlagIterator.AdvanceToTrue | src/ropufu/enum_array.hpp:193-203 | the position moves to the first set flag at or after it, or to past-the-last |
| EnumArrays.FlagIterator.Increment | src/ropufu/enum_array.hpp:222-228 | at past-the-last nothing moves; otherwise the position moves to the next set flag after it |
| EnumArrays.FlagsTest | src/tests/ropufu/enum_array.hpp:51-62 | starting from {almost_surely, surely}, setting maybe and perhaps and unsetting almost_surely and maybe leaves exactly perhaps and surely, whose keys sum to 1 + 3 |
| EnumArrays.AllKeys | src/ropufu/enum_array.hpp:402-406 | a fresh array listing every key in order, each within bounds |
| SlidingArrays.DisplacedSpec | src/ropufu/sliding_array.hpp:139-190 | displacing at the back drops the first element, shifts the others one place left and puts the value last; at the front it is the mirror image; displacing the dropped element back in at the front restores the window |
| SlidingArrays.SlidingArray.constructor | src/ropufu/sliding_array.hpp:170 | a fresh window holding the given elements |
| SlidingArrays.SlidingArray.DisplaceBack | src/ropufu/sliding_array.hpp:173-180 | for every size, the specialisations for 0, 1 and 2 included, the window becomes the old one displaced at the back (the specialisations at lines 204-208, 229-232 and 252) |
| SlidingArrays.SlidingArray.DisplaceFront | src/ropufu/sliding_array.hpp:183-190 | for every size, the window becomes the old one displaced at the front (the specialisations at lines 211-215, 235-238 and 255) |
| SlidingArrays.SlidingArray.ShiftLeft | src/ropufu/sliding_array.hpp:177 | the overlapping move left: every cell but the last takes its right neighbour's old value, and the last keeps its own |
| SlidingArrays.SlidingArray.ShiftRight | src/ropufu/sliding_array.hpp:187 | the overlapping move right: every cell but the first takes its left neighbour's old value, and the first keeps its own |
| SlidingArrays.StorageSize | src/ropufu/sliding_array.hpp:38-52 | the buffer has room for two blocks of the window's size and three spare cells, and is odd in size; for a non-empty window each block is exactly the window's size |
| SlidingArrays.Block | src/ropufu/sliding_array.hpp:56 | each block is at least as long as the window |
| SlidingArrays.BackStep | src/ropufu/sliding_array.hpp:143-145 | writing the value just right of the active block and reading one cell further on gives the window displaced at the back |
| SlidingArrays.FrontStep | src/ropufu/sliding_array.hpp:154-156 | writing the value just left of the active block and reading one cell earlier gives the window displaced at the front |
| SlidingArrays.SlidingVector.constructor | src/ropufu/sliding_array.hpp:54-106 | a fresh buffer of storage_size(size) cells and a window of the given size |
| SlidingArrays.SlidingVector.Copy | src/ropufu/sliding_array.hpp:108-113 | a fresh buffer holding the same window as the original |
| SlidingArrays.SlidingVector.Steal | src/ropufu/sliding_array.hpp:74-80 | the new vector owns the other's buffer and holds the same window; the other is left with no buffer and no elements |
| SlidingArrays.SlidingVector.MoveFrom | src/ropufu/sliding_array.hpp:83-90 | the vector takes over the other's buffer and window; the other is left with no buffer and no elements |
| SlidingArrays.SlidingVector.Get | src/ropufu/sliding_array.hpp:129-137 | the element at the index within the window |
| SlidingArrays.SlidingVector.DisplaceBack | src/ropufu/sliding_array.hpp:140-148 | the window becomes the old one displaced at the back; the buffer and the size stay and the two blocks keep their places |
| SlidingArrays.SlidingVector.DisplaceFront | src/ropufu/sliding_array.hpp:151-159 | the window becomes the old one displaced at the front; the buffer and the size stay |
| SlidingArrays.BackCells | src/ropufu/sliding_array.hpp:143-145 | with the blocks apart, the passive block receives the active one displaced at the back |
| SlidingArrays.FrontCells | src/ropufu/sliding_array.hpp:154-156 | with the blocks apart, the passive block receives the active one displaced at the front |
| SlidingArrays.CopyCells | src/ropufu/sliding_array.hpp:145-156 | memcpy between ranges that do not overlap: the target receives the source, and the source is unchanged |
| StoppingTimes.CrossesSmaller | src/ropufu/sequential/stopping_time.hpp:81-82 | a statistic that crosses a threshold crosses every smaller threshold, so the thresholds crossed always form a prefix |
| StoppingTimes.Insert | src/ropufu/sequential/stopping_time.hpp:103 | inserting into sorted thresholds keeps them sorted and adds exactly the one value |
| StoppingTimes.SortedCopy | src/ropufu/sequential/stopping_time.hpp:99-104 | the thresholds in ascending order, a permutation of those given |
| StoppingTimes.Initial | src/ropufu/sequential/stopping_time.hpp:99-111 | initialize gives a rule with the given thresholds, sorted, a zero stopping time for each and nothing observed |
| StoppingTimes.Advance | src/ropufu/sequential/stopping_time.hpp:115-124 | the loop moves past exactly the thresholds the statistic crosses and stops at the first one it does not |
| StoppingTimes.Check | src/ropufu/sequential/stopping_time.hpp:113-125 | check_for_stopping keeps the thresholds and the count and keeps the rule well formed |
| StoppingTimes.Observed | src/ropufu/sequential/stopping_time.hpp:176-183 | observe counts one more observation and keeps the thresholds |
| StoppingTimes.ObservedAll | src/ropufu/sequential/stopping_time.hpp:176-183 | observing values one at a time counts every one of them |
| StoppingTimes.BlockFrom | src/ropufu/sequential/stopping_time.hpp:191-197 | the block loop keeps the thresholds and does not count |
| StoppingTimes.Cleared | src/ropufu/sequential/stopping_time.hpp:168-173 | reset keeps the thresholds and clears the count and every stopping time |
| StoppingTimes.CheckSpec | src/ropufu/sequential/stopping_time.hpp:113-125 | with sorted thresholds, exactly the uncrossed thresholds the statistic exceeds become crossed, they are stopped at this time, and no earlier stopping time changes |
| StoppingTimes.StoppedObserve | src/ropufu/sequential/stopping_time.hpp:176-183 | once every threshold is crossed, observations only count |
| StoppingTimes.BlockFromCount | src/ropufu/sequential/stopping_time.hpp:191-197 | the block loop does not depend on how many observations came before |
| StoppingTimes.BlockIsRepeated | src/ropufu/sequential/stopping_time.hpp:176-200 | observing a block, with its early exit, leaves the rule exactly as observing its values one at a time |
| StoppingTimes.FirstCrossing | src/ropufu/sequential/stopping_time.hpp:40-42 | the reference definition of the stopping time inf{n : R_n > b}: the 1-based index of the first crossing statistic, or 0 when none crosses (the crossing test at lines 153-156) |
| StoppingTimes.TracksAll | src/ropufu/sequential/stopping_time.hpp:113-125 | observing more values keeps every recorded stopping time equal to the first crossing of its threshold (and the observation at lines 176-183) |
| StoppingTimes.ObservedWhen | src/ropufu/sequential/stopping_time.hpp:153-165 | after observing a sequence from a fresh rule, when(k) is the first crossing time of threshold k, and the rule has stopped exactly when every threshold has been crossed |
| StoppingTimes.FirstCrossingAt | src/ropufu/sequential/stopping_time.hpp:40-42 | a crossing at n with none before it is the first crossing |
| StoppingTimes.SortedCopyOfSorted | src/ropufu/sequential/stopping_time.hpp:103 | sorting thresholds already in order leaves them as they are |
| StoppingTimes.BorderCrossingTest | src/tests/sequential/stopping_time.hpp:59-77 | thresholds {1, 2, 5} and the process 0, -1, 1, 2, 0, 3, 3 stop at times 4 and 6, never for 5, and the rule is still running |
| StoppingTimes.TestCrossings | src/tests/sequential/stopping_time.hpp:61-77 | the test process first exceeds 1 at time 4 and 2 at time 6, and never exceeds 5 |
| StoppingTimes.BorderCrossing | src/tests/sequential/stopping_time.hpp:74-77 | with those first crossings, the recorded stopping times are 4, 6 and 0 and the rule has not stopped |
| StoppingTimes.StoppingTime.constructor | src/ropufu/sequential/stopping_time.hpp:128 | the default rule has no thresholds and so is stopped from the start |
| StoppingTimes.StoppingTime.Of | src/ropufu/sequential/stopping_time.hpp:133-146 | the rule's state is the initial rule for the given thresholds |
| StoppingTimes.StoppingTime.Reset | src/ropufu/sequential/stopping_time.hpp:168-173 | the state becomes the cleared rule |
| StoppingTimes.StoppingTime.CheckForStopping | src/ropufu/sequential/stopping_time.hpp:113-125 | the state becomes the one check_for_stopping specifies, with the strict comparison |
| StoppingTimes.StoppingTime.Observe | src/ropufu/sequential/stopping_time.hpp:176-183 | the state becomes the rule after observing the value |
| StoppingTimes.StoppingTime.ObserveBlock | src/ropufu/sequential/stopping_time.hpp:186-200 | the state becomes the rule after observing the block |
| StoppingTimes.StoppingTime.CheckBlock | src/ropufu/sequential/stopping_time.hpp:191-197 | the loop checks each value at its own time until the rule stops |
| OneSidedStoppingTimes.ReachingIsEnough | src/ropufu/sequential/one_sided_stopping_time.hpp:66-78 | a single-threshold one-sided rule stops on a statistic that reaches the threshold (the code's `>=`, although the class's doc comment at line 27 writes the rule as inf{n : R_n > b}), while stopping_time needs one that exceeds it |
| OneSidedStoppingTimes.OneSidedStoppingTime.constructor | src/ropufu/sequential/one_sided_stopping_time.hpp:52-97 | the state is the initial rule for the given thresholds, with no validation |
| OneSidedStoppingTimes.OneSidedStoppingTime.IsRunning | src/ropufu/sequential/one_sided_stopping_time.hpp:113-116 | running exactly when the rule has not stopped for every threshold |
| OneSidedStoppingTimes.OneSidedStoppingTime.Reset | src/ropufu/sequential/one_sided_stopping_time.hpp:119-125 | the state becomes the cleared rule |
| OneSidedStoppingTimes.OneSidedStoppingTime.CheckForStopping | src/ropufu/sequential/one_sided_stopping_time.hpp:66-78 | the state becomes the one check_for_stopping specifies, with the non-strict comparison |
| OneSidedStoppingTimes.OneSidedStoppingTime.Observe | src/ropufu/sequential/one_sided_stopping_time.hpp:128-136 | the state becomes the rule after observing the chart's statistic |
| OneSidedStoppingTimes.OneSidedStoppingTime.ObserveBlock | src/ropufu/sequential/one_sided_stopping_time.hpp:139-156 | the state becomes the rule after observing the block of statistics |
| OneSidedStoppingTimes.OneSidedStoppingTime.CheckBlock | src/ropufu/sequential/one_sided_stopping_time.hpp:146-152 | the loop checks each statistic at its own time until the rule stops |
| Cusums.Trace | src/ropufu/sequential/cusum.hpp:133-145 | the block update returns one statistic per value |
| Cusums.LargestRecentSum | src/ropufu/sequential/cusum.hpp:122-128 | started from 0, the CUSUM statistic is the largest sum of a non-empty run of the most recent observations, and it is attained by one such run |
| Cusums.AccumulationTest | src/tests/sequential/cusum.hpp:49-59 | observing 2, 3, -7, 1, 2, 3, 4, 5, 5, -5 gives 20 before the last observation and 15 after it |
| Cusums.Cusum.constructor | src/ropufu/sequential/cusum.hpp:76-91 | the rule starts from the given thresholds and the statistic from 0 |
| Cusums.Cusum.UpdateStatistic | src/ropufu/sequential/cusum.hpp:122-128 | the new statistic is max(previous, 0) + value, stored and returned |
| Cusums.Cusum.UpdateStatistics | src/ropufu/sequential/cusum.hpp:133-145 | each value in turn goes through the same recursion; the result holds each intermediate statistic and the chart keeps the last |
| Cusums.Cusum.OnReset | src/ropufu/sequential/cusum.hpp:148-151 | the statistic goes back to 0 |
| Cusums.Cusum.Reset | src/ropufu/sequential/one_sided_stopping_time.hpp:119-125 | the rule is cleared and the statistic goes back to 0 |
| Cusums.Cusum.Observe | src/ropufu/sequential/one_sided_stopping_time.hpp:128-136 | while the rule runs the statistic moves and the rule observes it; once stopped, the statistic stays and the observation only counts |
| Cusums.Cusum.ObserveBlock | src/ropufu/sequential/one_sided_stopping_time.hpp:139-155 | while the rule runs the whole block moves the statistic and the rule observes the block of statistics |
| WindowLimitedCusums.PeakSumIsLargest | src/ropufu/sequential/window_limited_cusum.hpp:174-187 | the loops' peak is the largest sum of the newest k entries of the window, 0 <= k <= L, the empty sum being 0, and it is attained |
| WindowLimitedCusums.Ring | src/ropufu/sequential/window_limited_cusum.hpp:77-80 | the window read from the newest index round the buffer has the buffer's length |
| WindowLimitedCusums.RingStep | src/ropufu/sequential/window_limited_cusum.hpp:171-172 | stepping the newest index back by one modulo L and writing the value there puts the value in front of the window and drops the oldest entry |
| WindowLimitedCusums.Slid | src/ropufu/sequential/window_limited_cusum.hpp:196-199 | the window after a block keeps its length |
| WindowLimitedCusums.Peaks | src/ropufu/sequential/window_limited_cusum.hpp:193-218 | the block update gives one statistic per value |
| WindowLimitedCusums.PeakStep | src/ropufu/sequential/window_limited_cusum.hpp:178-179 | one more entry adds to the running sum, and the peak is replaced exactly when the new sum exceeds it |
| WindowLimitedCusums.Peak | src/ropufu/sequential/window_limited_cusum.hpp:174-187 | the two loops over the buffer compute the peak of the window read from the newest index |
| WindowLimitedCusums.Accumulate | src/ropufu/sequential/window_limited_cusum.hpp:176-186 | one loop extends the running sum and the running peak over the next stretch of the window |
| WindowLimitedCusums.WindowLimitedCusum.Window | src/ropufu/sequential/window_limited_cusum.hpp:75-80 | the window has the buffer's length |
| WindowLimitedCusums.WindowLimitedCusum.Create | src/ropufu/sequential/window_limited_cusum.hpp:84-134 | a window of size 0 fails validation with logic_error; otherwise the chart has a zero history of the given size |
| WindowLimitedCusums.WindowLimitedCusum.constructor | src/ropufu/sequential/window_limited_cusum.hpp:99-134 | for a positive window size, the rule starts from the thresholds and the window is all zeros |
| WindowLimitedCusums.WindowLimitedCusum.UpdateStatistic | src/ropufu/sequential/window_limited_cusum.hpp:168-188 | the value overwrites the oldest entry and becomes the newest, and the result is the peak of the new window |
| WindowLimitedCusums.WindowLimitedCusum.UpdateStatistics | src/ropufu/sequential/window_limited_cusum.hpp:193-218 | each value slides the window in turn; the result holds each window's peak |
| WindowLimitedCusums.WindowLimitedCusum.OnReset | src/ropufu/sequential/window_limited_cusum.hpp:220-224 | every entry becomes 0 and the newest index 0 |
| WindowLimitedCusums.WindowLimitedCusum.Reset | src/ropufu/sequential/one_sided_stopping_time.hpp:119-125 | the rule is cleared and the window is all zeros |
| WindowLimitedCusums.WindowLimitedCusum.Observe | src/ropufu/sequential/one_sided_stopping_time.hpp:128-136 | while the rule runs the window slides and the rule observes its peak; once stopped, the window stays |
| WindowLimitedCusums.WindowLimitedCusum.ObserveBlock | src/ropufu/sequential/one_sided_stopping_time.hpp:139-155 | while the rule runs the block slides the window and the rule observes the block of peaks |
| EmpiricalMeasures.WeightIsProduct | src/ropufu/probability/empirical_measure.hpp:378-381 | adding a key `repeat` times adds repeat * key to the integer sum |
| EmpiricalMeasures.DescribedCounts | src/ropufu/probability/empirical_measure.hpp:84-134 | for a measure built by a log of observe calls: empty exactly when no key was observed, most_likely_count bounds every key's count and most_likely_value attains it, min and max are observed keys bounding every observed key (the accessors at lines 284-295) |
| EmpiricalMeasures.CountSplit | src/ropufu/probability/empirical_measure.hpp:84-88 | one more observation raises count(key) by its repeat for its own key and leaves every other key's count alone |
| EmpiricalMeasures.ObservedDescribes | src/ropufu/probability/empirical_measure.hpp:84-97 | observe keeps every field faithful to the extended log: the map, the total, the sum, the most likely value and the extreme keys (the fields at lines 284-289 and 378-381) |
| EmpiricalMeasures.ReplayedDescribes | src/ropufu/probability/empirical_measure.hpp:84-97 | any sequence of observe calls keeps every field faithful to the log |
| EmpiricalMeasures.ClearedDescribes | src/ropufu/probability/empirical_measure.hpp:73-81 | a new measure and a cleared one both describe the empty log: counts 0, min and max back at their sentinels, sum 0 (the fields at lines 278-282 and 377) |
| EmpiricalMeasures.TieKeepsEarlier | src/ropufu/probability/empirical_measure.hpp:89-93 | a new count equal to the largest leaves the most likely value; only a strictly larger one replaces it, and then the count is the key's logged count |
| EmpiricalMeasures.Smallest | src/ropufu/probability/empirical_measure.hpp:62-63 | the first key of an ordered map: a member that no other member undercuts |
| EmpiricalMeasures.EntriesCount | src/ropufu/probability/empirical_measure.hpp:521-545 | iterating a map in ascending order yields each key exactly with its stored count |
| EmpiricalMeasures.TallyTallies | src/ropufu/probability/empirical_measure.hpp:87 | the map built by `m_data[key] += repeat` holds each observed key's total count and no key with count 0 |
| EmpiricalMeasures.TalliesUnique | src/ropufu/probability/empirical_measure.hpp:87 | only one map tallies a given log |
| EmpiricalMeasures.TallyEntries | src/ropufu/probability/empirical_measure.hpp:87-88 | the tallied map's entries carry the same total and the same sum as the log itself (the sum at line 380) |
| EmpiricalMeasures.DescribedEntries | src/ropufu/probability/empirical_measure.hpp:87-88 | the stored map's entries add up to count() and to the sum (the sum at line 380) |
| EmpiricalMeasures.MergeAdds | src/ropufu/probability/empirical_measure.hpp:543-546 | merging adds each of the other measure's counts key by key, and its total and sum |
| EmpiricalMeasures.OrderedTest | src/tests/probability/empirical_measure.hpp:68-86 | observing (2,3), (0,7), (1,5), (1,1), (1,4) gives 20 observations, most likely value 1 with count 10, min 0, max 2 and sum 16 |
| EmpiricalMeasures.EmpiricalMeasure.constructor | src/ropufu/probability/empirical_measure.hpp:66-70 | a new measure has no observations, min at the key type's largest value and max at its lowest (the initial fields at lines 274-275, 375 and 515) |
| EmpiricalMeasures.EmpiricalMeasure.FromPairs | src/ropufu/probability/empirical_measure.hpp:527-540 | keys and values of different lengths are a logic_error; otherwise the pairs are observed in order |
| EmpiricalMeasures.EmpiricalMeasure.FromDictionary | src/ropufu/probability/empirical_measure.hpp:518-522 | each entry of the dictionary is observed with its count, in ascending key order |
| EmpiricalMeasures.EmpiricalMeasure.Clear | src/ropufu/probability/empirical_measure.hpp:73-81 | the map, the counts, min, max and sum go back to their initial values; the most likely value is kept (the fields at lines 278-282 and 377) |
| EmpiricalMeasures.EmpiricalMeasure.Observe | src/ropufu/probability/empirical_measure.hpp:84-97 | the state becomes the observed state and the log grows by the call, keeping the fields faithful to it |
| EmpiricalMeasures.EmpiricalMeasure.UpdateFields | src/ropufu/probability/empirical_measure.hpp:86-93 | repeat 0 changes nothing; otherwise count(key) and count() rise by repeat, the most likely value moves on a strictly larger count, min and max widen and the sum grows by repeat * key (the fields at lines 284-289 and 378-381) |
| EmpiricalMeasures.EmpiricalMeasure.IsEmpty | src/ropufu/probability/empirical_measure.hpp:107 | true exactly when nothing was observed since the last clear, i.e. every key's count is 0 |
| EmpiricalMeasures.EmpiricalMeasure.Count | src/ropufu/probability/empirical_measure.hpp:110 | the total of the repeats observed since the last clear |
| EmpiricalMeasures.EmpiricalMeasure.CountOf | src/ropufu/probability/empirical_measure.hpp:113-117 | how often the key was observed since the last clear, 0 for a key never seen |
| EmpiricalMeasures.EmpiricalMeasure.MostLikelyCount | src/ropufu/probability/empirical_measure.hpp:131 | no key's count exceeds it, and once something is observed some key attains it |
| EmpiricalMeasures.EmpiricalMeasure.Min | src/ropufu/probability/empirical_measure.hpp:274-293 | the smallest observed key, or the key type's largest value before any observation |
| EmpiricalMeasures.EmpiricalMeasure.Max | src/ropufu/probability/empirical_measure.hpp:275-295 | the largest observed key, or the key type's lowest value before any observation |
| EmpiricalMeasures.EmpiricalMeasure.Merge | src/ropufu/probability/empirical_measure.hpp:543-546 | every key's count, the total and the sum grow by the other measure's (read before the loop, so self-merge doubles) |
| EmpiricalMeasures.EmpiricalMeasure.ObserveAll | src/ropufu/probability/empirical_measure.hpp:521-545 | the map's entries are observed in ascending key order and the fields stay faithful to the log |
| MatrixArrangements.Size | src/ropufu/algebra/matrix_arrangement.hpp:50-59 | the element count is 0 exactly when one of the dimensions is 0 |
| MatrixArrangements.SquareSize | src/ropufu/algebra/matrix_arrangement.hpp:53-56 | the square size is one of the two dimensions and exceeds neither |
| MatrixArrangements.IsEmpty | src/ropufu/algebra/matrix_arrangement.hpp:59 | a matrix is empty exactly when its height or its width is 0 |
| MatrixArrangements.ReconstructFlatten | src/ropufu/algebra/matrix_arrangement.hpp:171-233 | an in-range (row, column) flattens to an index below size() and reconstructs to itself, in row-major and in column-major order |
| MatrixArrangements.FlattenReconstruct | src/ropufu/algebra/matrix_arrangement.hpp:171-233 | a flat index below size() reconstructs to an in-range pair that flattens back to it |
| MatrixArrangements.Reshaped | src/ropufu/algebra/matrix_arrangement.hpp:67-73 | the reshape succeeds exactly when height * width equals size(); on success the dimensions are the requested ones, otherwise nothing changes |
| MatrixArrangements.RowSlice | src/ropufu/algebra/matrix_arrangement.hpp:76-86 | a row index at or past the height throws out_of_range; otherwise the slice has width() elements |
| MatrixArrangements.ColumnSlice | src/ropufu/algebra/matrix_arrangement.hpp:89-99 | a column index at or past the width throws out_of_range; otherwise the slice has height() elements |
| MatrixArrangements.DiagonalSlice | src/ropufu/algebra/matrix_arrangement.hpp:102-128 | an index above the width or below minus the height throws out_of_range; otherwise the count is at most square_size() |
| MatrixArrangements.RowSliceVisitsRow | src/ropufu/algebra/matrix_arrangement.hpp:82-85 | the k-th element of a row slice is the flat index of (row, k), and the end position is one stride past the last element (the slice at lines 161 and 213) |
| MatrixArrangements.ColumnSliceVisitsColumn | src/ropufu/algebra/matrix_arrangement.hpp:95-98 | the k-th element of a column slice is the flat index of (k, column), and the end position is one stride past the last element (the slice at lines 163 and 215) |
| MatrixArrangements.DiagonalSliceInRange | src/ropufu/algebra/matrix_arrangement.hpp:105-127 | every element of a diagonal slice is an in-range cell one row and one column past the previous one, and the end position is one stride past the last (the slice at lines 165 and 217) |
| MatrixArrangements.DiagonalStep | src/ropufu/algebra/matrix_arrangement.hpp:165-225 | one diagonal stride (width + 1 row-major, height + 1 column-major) moves one row down and one column right |
| MatrixArrangements.MatrixArrangement.constructor | src/ropufu/algebra/matrix_arrangement.hpp:38-41 | the arrangement has the given height and width in the type's order |
| MatrixArrangements.MatrixArrangement.TryReshape | src/ropufu/algebra/matrix_arrangement.hpp:67-73 | the result and the new dimensions are those of the reshape rule: success iff the element count is kept, dimensions unchanged on failure |
| Arithmetic.AndPredecessor | src/ropufu/arithmetic.hpp:24 | n & (n - 1) is 0 exactly for the positive numbers that halve evenly down to 1 |
| Arithmetic.IsPowerOfTwo | src/ropufu/arithmetic.hpp:13-25 | true exactly when the number is 2^k for some k; false for 0 and every negative number |
| Arithmetic.PowerOfTwoMeaning | src/ropufu/arithmetic.hpp:24 | for a positive n, the bit test n & (n - 1) == 0 holds exactly when n is a power of two |
| Arithmetic.Log2Bounds | src/ropufu/arithmetic.hpp:27-29 | the base-two logarithm x of a positive number a is the largest with 2^x <= a: a < 2^(x + 1) |
| Arithmetic.LogBaseTwo | src/ropufu/arithmetic.hpp:30-41 | the halving loop returns the largest x with 2^x <= abs(number), and 0 for 0 |
| Arithmetic.LogNBounds | src/ropufu/arithmetic.hpp:43-45 | the base-b logarithm x of a positive number a is the largest with b^x <= a: a < b^(x + 1) |
| Arithmetic.LogBaseN | src/ropufu/arithmetic.hpp:46-57 | the dividing loop returns the largest x with abs(base)^x <= abs(number) and 0 for 0; a base of 1 or -1 leaves only 0 to return 0 |
| Arithmetic.Npow | src/ropufu/arithmetic.hpp:60-69 | 0 for base 0 (even to the power 0) or a negative power, otherwise base to the power |
| Arithmetic.PowerAdd | src/ropufu/arithmetic.hpp:66-67 | the product loop's power of a sum of exponents is the product of the powers |
| Arithmetic.PowerOfTwoPower | src/ropufu/arithmetic.hpp:13-69 | npow(2, k) is a power of two and its base-two logarithm is k |
| Arithmetic.MersenneNumber | src/ropufu/arithmetic.hpp:72-84 | 0 for a power below 1, otherwise 2^power - 1 |
| Arithmetic.MersenneRoundTrip | src/ropufu/arithmetic.hpp:72-100 | mersenne_power(mersenne_number(p)) == p for every p >= 1 |
| Arithmetic.MersenneExponentMeaning | src/ropufu/arithmetic.hpp:86-100 | a non-zero result e means the number is 2^e - 1; a result 0 means the number is 2^p - 1 for no p >= 1 |
| Arithmetic.MersennePower | src/ropufu/arithmetic.hpp:87-100 | the shifting loop returns the Mersenne exponent of the number, 0 for a number below 1 or with a 0 bit below its top bit |
| Arithmetic.FallingLast | src/ropufu/arithmetic.hpp:102-112 | one more factor multiplies the falling product by number - count |
| Arithmetic.FallingFactorial | src/ropufu/arithmetic.hpp:103-114 | 1 for a count below 1, otherwise the product number * (number - 1) * ... * (number - count + 1) |
| Arithmetic.FallingSign | src/ropufu/arithmetic.hpp:102-114 | for a natural number the falling product is 0 once the count exceeds it and positive otherwise |
| Arithmetic.Factorial | src/ropufu/arithmetic.hpp:117-118 | number! as the falling product of number factors, positive for every natural number |
| Arithmetic.NChooseK | src/ropufu/arithmetic.hpp:121-125 | for naturals the result is the binomial coefficient given by Pascal's rule; choosing fewer than 1 gives 1, choosing all of at least 1 gives 1, and choosing more than a natural total gives 0 |
| Arithmetic.BinomialFalling | src/ropufu/arithmetic.hpp:121-125 | the binomial coefficient times k! is the falling factorial of n with k factors, so the division in nchoosek leaves no remainder |
| Arithmetic.FractionTowardZero | src/ropufu/arithmetic.hpp:128-132 | the quotient rounded toward zero: q * denominator lies between 0 and the numerator, less than one denominator away from it |
| Arithmetic.FractionAwayFromZero | src/ropufu/arithmetic.hpp:139-149 | for a positive denominator the quotient rounded away from zero: q * denominator reaches past the numerator by less than one denominator |
| Arithmetic.RoundingTests | src/tests/ropufu/arithmetic.hpp:24-74 | for every a > 0: a/a rounds to 1, a/(a + 1) and 1/(a + 1) round to 0 toward zero and to 1 away from zero, and the same with signs flipped |
| Elementwise.IdentityPermutation | src/ropufu/algebra/elementwise.hpp:16-23 | the result holds 0, 1, ..., size - 1, each at its own index |
| Elementwise.Permutation | src/ropufu/algebra/elementwise.hpp:26-36 | for a comparer that is a strict weak order, the result is a permutation of the identity under which no later element compares less than an earlier one |
| Elementwise.Insert | src/ropufu/algebra/elementwise.hpp:31-34 | one sorting step keeps the indices a permutation, leaves the unsorted tail alone and extends the sorted prefix by one |
| Elementwise.InsertingStep | src/ropufu/algebra/elementwise.hpp:31-34 | swapping an element with a larger left neighbour keeps the prefix sorted around the element being inserted |
| Elementwise.Inserted | src/ropufu/algebra/elementwise.hpp:31-34 | once the inserted element is no less than its left neighbour, the whole prefix is sorted |
| Elementwise.AscendingPermutation | src/ropufu/algebra/elementwise.hpp:39-43 | a permutation of the indices visiting the elements in non-decreasing order |
| Elementwise.DescendingPermutation | src/ropufu/algebra/elementwise.hpp:46-50 | a permutation of the indices visiting the elements in non-increasing order |
| Elementwise.ZFirstNotStrict | src/tests/algebra/elementwise.hpp:65-66 | the test's z-first comparer puts 'z' before 'z', so it is not a strict weak order |
| Elementwise.ZFirstStrict | src/tests/algebra/elementwise.hpp:65-66 | the z-first comparer with 'z' not before itself is a strict weak order |
| Elementwise.ZFirstPermutation | src/tests/algebra/elementwise.hpp:57-73 | sorting with the z-first comparer gives a permutation of the indices that starts at a 'z' when there is one and visits the other letters in alphabetical order after every 'z' |
| Elementwise.AddThenSubtract | src/ropufu/algebra/elementwise.hpp:53-80 | subtracting the container that was added restores the source, whatever the two lengths |
| Elementwise.TryAddAssign | src/ropufu/algebra/elementwise.hpp:68-80 | the common prefix is added element by element, the rest of the source kept; success iff the two lengths are equal |
| Elementwise.TrySubtractAssign | src/ropufu/algebra/elementwise.hpp:53-65 | the common prefix is subtracted element by element, the rest of the source kept; success iff the two lengths are equal |
| Elementwise.OrHighBit | src/ropufu/algebra/elementwise.hpp:97 | or-ing in a flag above every set bit adds its value |
| Elementwise.BitOfSum | src/ropufu/algebra/elementwise.hpp:97-98 | the mask with a new top flag has exactly the old bits and the new one |
| Elementwise.BitsBelow | src/ropufu/algebra/elementwise.hpp:94-98 | a mask below 2^k has no bit at or above k |
| Elementwise.MaskOfBits | src/ropufu/algebra/elementwise.hpp:91-100 | bit i of the mask is set exactly when element i satisfies the predicate, and no bit past the last element is set |
| Elementwise.ToBinaryMask | src/ropufu/algebra/elementwise.hpp:91-100 | the loop computes the predicate's mask of the elements |
| Elementwise.ShiftedBit | src/ropufu/algebra/elementwise.hpp:114-115 | after i right shifts the lowest bit is bit i of the mask, and one more shift halves the value |
| Elementwise.MaskedSum | src/ropufu/algebra/elementwise.hpp:109-117 | the sum of the elements whose bit is set in the mask |
| Elementwise.MaskedTouch | src/ropufu/algebra/elementwise.hpp:127-134 | the action sees exactly the elements whose bit is set, in order |
| Elementwise.MaskedAction | src/ropufu/algebra/elementwise.hpp:144-151 | the action is applied in place to exactly the elements whose bit is set; the others are unchanged |
| Elementwise.TouchedSum | src/tests/algebra/elementwise.hpp:163-168 | adding up what masked_touch sees gives masked_sum |
| Elementwise.SumAppend | src/ropufu/algebra/elementwise.hpp:111-116 | the sum of a concatenation is the sum of the parts |
| Elementwise.MaskedSumOfMask | src/tests/algebra/elementwise.hpp:136-156 | masked_sum over the mask of a predicate is the sum of the elements satisfying it |
| Elementwise.SumAgrees | src/ropufu/algebra/elementwise.hpp:109-117 | any mask whose bits agree with a predicate sums the elements satisfying it |
| Elementwise.OrOfMasks | src/tests/algebra/elementwise.hpp:136-158 | the or of two predicates' masks selects the elements satisfying either predicate |
| Elementwise.BitOfOr | src/tests/algebra/elementwise.hpp:138 | bit i of (a OR b) is set iff it is set in a or in b |
| Elementwise.OddAfterAction | src/tests/algebra/elementwise.hpp:171-173 | or-ing 1 into the elements of the even mask leaves no even element, so the even mask becomes 0 |
| Elementwise.NoneSelected | src/ropufu/algebra/elementwise.hpp:91-100 | a predicate no element satisfies has mask 0 |
| Projectors.GoodBool | src/ropufu/algorithm/projector.hpp:141-157 | the boolean comparer's exclusive or agrees with the generic "not the blocked indicator" test: with indicator false the true cells are good, with indicator true the false cells |
| Projectors.Gap | src/ropufu/algorithm/projector.hpp:205-206 | the unsigned branches compute the absolute difference of two coordinates |
| Projectors.Distance | src/ropufu/algorithm/projector.hpp:203-208 | the L1 distance of two indices, 0 exactly when they are equal |
| Projectors.DistanceMetric | src/ropufu/algorithm/projector.hpp:203-208 | the distance is symmetric and satisfies the triangle inequality |
| Projectors.AdjacentRank | src/ropufu/algorithm/projector.hpp:215-242 | a cell at distance 1 is one of the four directions the override inspects |
| Projectors.Step | src/ropufu/algorithm/projector.hpp:215-242 | each direction contributes at most one neighbour, of its own rank, in bounds, passable, one step away and at cost 1 |
| Projectors.Join | src/ropufu/algorithm/projector.hpp:215-242 | appending the next direction's candidate keeps the list sound and in strictly increasing direction order |
| Projectors.Neighbors | src/ropufu/algorithm/projector.hpp:210-243 | every listed neighbour is an in-bounds passable cell at distance 1 and cost 1; every such cell is listed; the order is above, right, below, left |
| Projectors.NeighborsComplete | src/ropufu/algorithm/projector.hpp:215-242 | the four directions together hold every passable in-bounds cell at distance 1 |
| Projectors.NeighborsOverride | src/ropufu/algorithm/projector.hpp:210-243 | clearing the output and pushing the four directions in turn yields exactly the neighbour list above |
| Projectors.PushAbove | src/ropufu/algorithm/projector.hpp:215-221 | the cell above is appended when the source is not in the first row and the cell is passable |
| Projectors.PushRight | src/ropufu/algorithm/projector.hpp:222-228 | the cell to the right is appended when the source is not in the last column and the cell is passable |
| Projectors.PushBelow | src/ropufu/algorithm/projector.hpp:229-235 | the cell below is appended when the source is not in the last row and the cell is passable |
| Projectors.PushLeft | src/ropufu/algorithm/projector.hpp:236-242 | the cell to the left is appended when the source is not in the first column and the cell is passable |
| Pathfinders.UpperBound | src/ropufu/algorithm/pathfinder.hpp:71-104 | the multimap inserts a key after every entry whose key is not greater and before the first greater one |
| Pathfinders.EmplaceFacts | src/ropufu/algorithm/pathfinder.hpp:71-104 | emplacing grows the multimap by one, keeps its keys in order, adds exactly the new cell to the pending cells and keeps each cell pending at most once |
| Pathfinders.PopFacts | src/ropufu/algorithm/pathfinder.hpp:113-118 | erasing the cheapest entry leaves the rest sorted and distinct, with that cell no longer pending |
| Pathfinders.RelaxAll | src/ropufu/algorithm/pathfinder.hpp:125-137 | the neighbour loop changes nodes of the traceback matrix but never its set of cells |
| Pathfinders.EnqueueKeeps | src/ropufu/algorithm/pathfinder.hpp:93-105 | enqueueing an unvisited passable neighbour of a closed cell at one more than its cost keeps the search invariant: the cell becomes open, pending once, and linked back to that cell |
| Pathfinders.QueueAfterEnqueue | src/ropufu/algorithm/pathfinder.hpp:101-104 | after an enqueue the multimap still holds exactly the open cells |
| Pathfinders.LowerKeeps | src/ropufu/algorithm/pathfinder.hpp:132-136 | re-routing an open neighbour through the closed current cell at a lower cost keeps the search invariant |
| Pathfinders.WithoutSorted | src/ropufu/algorithm/pathfinder.hpp:132-136 | erasing a cell's entry (the corrected re-route's first half) keeps the keys in order |
| Pathfinders.WithoutDistinct | src/ropufu/algorithm/pathfinder.hpp:132-136 | erasing a cell's entry keeps each cell pending at most once |
| Pathfinders.WithoutQueued | src/ropufu/algorithm/pathfinder.hpp:132-136 | erasing a cell's entry removes exactly that cell from the pending ones |
| Pathfinders.RekeyFacts | src/ropufu/algorithm/pathfinder.hpp:132-136 | erasing a pending cell's entry and emplacing it under a new key keeps the multimap sorted and distinct with the same pending cells; only that cell's entry changes |
| Pathfinders.EnqueueKeysExact | src/ropufu/algorithm/pathfinder.hpp:97-103 | an enqueued cell is keyed by its cost plus its distance to the target |
| Pathfinders.StaleKey | src/ropufu/algorithm/pathfinder.hpp:132-136 | as written, re-routing an open cell at a lower cost leaves its entry keyed by the old cost: the key is no longer the cell's cost plus its distance to the target |
| Pathfinders.RerouteQueue | src/ropufu/algorithm/pathfinder.hpp:132-136 | either re-route sets the cell's cost and came-from and leaves the multimap sorted and distinct over the same cells; the re-keying one changes only that cell's entry |
| Pathfinders.RelaxLower | src/ropufu/algorithm/pathfinder.hpp:132-136 | re-routing an open neighbour keeps the invariant, leaves it visited at one more than the current cell, and the re-keying re-route keeps the keys exact |
| Pathfinders.RelaxLowerKeys | src/ropufu/algorithm/pathfinder.hpp:132-136 | the re-keying re-route keeps every key equal to its cell's cost plus its distance to the target |
| Pathfinders.ReplacedKeysExact | src/ropufu/algorithm/pathfinder.hpp:132-136 | replacing one cell's node and its entry by one keyed for the new node keeps every key exact |
| Pathfinders.RelaxKeeps | src/ropufu/algorithm/pathfinder.hpp:127-136 | handling one passable neighbour of the closed current cell keeps the invariant, and the neighbour is visited afterwards |
| Pathfinders.RelaxAllKeeps | src/ropufu/algorithm/pathfinder.hpp:124-137 | handling all neighbours keeps the invariant, only grows the visited set and lowers costs, and leaves every neighbour visited at no more than one above the current cell unless closed; with re-keying the keys stay exact |
| Pathfinders.CloseKeeps | src/ropufu/algorithm/pathfinder.hpp:113-120 | closing the cheapest pending cell keeps the invariant, and its neighbours are the only frontier left to handle |
| Pathfinders.ExpandKeeps | src/ropufu/algorithm/pathfinder.hpp:108-138 | expand, as written or re-keying, keeps the invariant, closes the cheapest pending cell at its cost, which was not closed before, and otherwise only reaches cells or lowers their costs; the re-keying expand keeps every key equal to the cell's cost plus its distance to the target |
| Pathfinders.FrontierCloses | src/ropufu/algorithm/pathfinder.hpp:124-137 | once every passable neighbour of the current cell is visited, every closed cell has all its passable neighbours visited |
| Pathfinders.ExpandMonotone | src/ropufu/algorithm/pathfinder.hpp:118-137 | closed cells stay as they were, visited cells stay visited at no higher cost, and one cell fewer is not closed |
| Pathfinders.ClosedKeysExact | src/ropufu/algorithm/pathfinder.hpp:113-120 | closing the cheapest cell keeps the keys exact, and makes them exact when at most one entry was pending |
| Pathfinders.FreshOptimal | src/ropufu/algorithm/pathfinder.hpp:168-177 | the constructed search has the source at cost 0 and nothing closed, so it is optimal for any target |
| Pathfinders.WalkDistance | src/ropufu/algorithm/pathfinder.hpp:98 | a walk of n cells spans a distance of at most n - 1: the estimate never overshoots |
| Pathfinders.PopShortest | src/ropufu/algorithm/pathfinder.hpp:112-114 | with exact keys, the cheapest pending cell costs less than any walk from the source to it has cells |
| Pathfinders.LeaveClosed | src/ropufu/algorithm/pathfinder.hpp:112-114 | a walk from the source to a cell not closed leaves the closed cells at a visited cell costing at most its place on the walk |
| Pathfinders.KeyBound | src/ropufu/algorithm/pathfinder.hpp:112-114 | the cheapest pending cell costs at most any other pending cell's cost plus their distance |
| Pathfinders.PopThrough | src/ropufu/algorithm/pathfinder.hpp:112-114 | a walk that leaves the closed cells before the cheapest pending cell is no shorter than that cell's cost plus one |
| Pathfinders.ExpandOptimal | src/ropufu/algorithm/pathfinder.hpp:108-138 | the re-keying expand keeps the source at cost 0, the keys exact and every closed cell at its shortest cost |
| Pathfinders.ClosingOptimal | src/ropufu/algorithm/pathfinder.hpp:112-119 | closing the cheapest cell while keeping the cells closed before and exact keys keeps every closed cell at its shortest cost |
| Pathfinders.StillClosed | src/ropufu/algorithm/pathfinder.hpp:118-119 | a closed cell other than the one just closed was closed before |
| Pathfinders.PathToLength | src/ropufu/algorithm/pathfinder.hpp:147-153 | the came-from chain to a visited cell has one cell more than the cell's cost |
| Pathfinders.ClosedPathShortest | src/ropufu/algorithm/pathfinder.hpp:192-196 | in an optimal search the path reconstructed to a closed target is no longer than any walk to it |
| Pathfinders.PathTo | src/ropufu/algorithm/pathfinder.hpp:147-153 | following the came-from links from a visited cell reaches the source, and the reversed chain is a walk of passable adjacent cells from the source to that cell |
| Pathfinders.WalkStaysClosed | src/ropufu/algorithm/pathfinder.hpp:180-183 | with nothing open and every closed cell's neighbours visited, every cell a walk from the closed source reaches is closed |
| Pathfinders.Reverse | src/ropufu/algorithm/pathfinder.hpp:157 | the reversed sequence holds element k of the original at position len(xs) - 1 - k |
| Pathfinders.CopyReversed | src/ropufu/algorithm/pathfinder.hpp:155-158 | the copy loop from crbegin to crend produces the reverse of the collected path |
| Pathfinders.ReverseSnoc | src/ropufu/algorithm/pathfinder.hpp:148-157 | reversing after one more push_back puts the pushed cell first |
| Pathfinders.Blanks | src/ropufu/algorithm/pathfinder.hpp:170 | the traceback matrix has one blank node for every cell of the grid and no other |
| Pathfinders.EnqueueSourceFresh | src/ropufu/algorithm/pathfinder.hpp:168-177 | enqueueing the source into the blank matrix leaves exactly the source open, at cost 0, linked to itself and pending |
| Pathfinders.FreshInvariant | src/ropufu/algorithm/pathfinder.hpp:168-177 | the constructed search satisfies the search invariant |
| Pathfinders.Pathfinder.constructor | src/ropufu/algorithm/pathfinder.hpp:168-177 | a pathfinder for a source in the grid starts with only the source open and pending |
| Pathfinders.Pathfinder.Create | src/ropufu/algorithm/pathfinder.hpp:168-177 | a source outside the grid is invalid_argument; otherwise the constructed search is valid (validate at lines 80-85) |
| Pathfinders.Pathfinder.Enqueue | src/ropufu/algorithm/pathfinder.hpp:93-105 | a closed or open position is skipped; otherwise its cost, came-from and open flag are set and it is emplaced at cost plus distance to the target |
| Pathfinders.Pathfinder.Expand | src/ropufu/algorithm/pathfinder.hpp:108-138 | expand (as written, or with the re-routed cell re-keyed) keeps the search invariant and, when something was pending, strictly shrinks the set of cells not yet closed |
| Pathfinders.Pathfinder.RelaxNeighbors | src/ropufu/algorithm/pathfinder.hpp:125-137 | the loop handles the neighbours one after another, in order |
| Pathfinders.Pathfinder.RelaxOne | src/ropufu/algorithm/pathfinder.hpp:127-136 | a closed neighbour is skipped, an unvisited one enqueued, an open one re-routed when the new cost is lower; the re-route keeps its entry (as written) or erases it and emplaces it under the new estimate |
| Pathfinders.Pathfinder.ReconstructPath | src/ropufu/algorithm/pathfinder.hpp:140-159 | for a closed target the result becomes a walk from the source to the target along the came-from links; otherwise it is left as it was |
| Pathfinders.Pathfinder.Exhaust | src/ropufu/algorithm/pathfinder.hpp:180-183 | afterwards nothing is pending and every cell a walk from the source reaches is closed |
| Pathfinders.Pathfinder.AllReachedClosed | src/ropufu/algorithm/pathfinder.hpp:180-183 | with nothing pending, every cell reachable from the source is closed |
| Pathfinders.Pathfinder.TraceAsWritten | src/ropufu/algorithm/pathfinder.hpp:186-201 | an out-of-grid target is argument_out_of_domain, a returned path is a walk to the target, and when the target is the last pending cell the loop ends with host_unreachable although the target is reachable |
| Pathfinders.Pathfinder.Trace | src/ropufu/algorithm/pathfinder.hpp:186-201 | an out-of-grid target is argument_out_of_domain; otherwise a path is returned exactly when the target is reachable from the source, it is a walk to it, and on a freshly constructed pathfinder no walk to the target is shorter |
| Pathfinders.LastStepCloses | src/ropufu/algorithm/pathfinder.hpp:108-138 | when the target is the only pending cell and its neighbours are all closed, one expand closes it and empties the multimap (the loop at lines 194-198) |
| Pathfinders.RelaxAllSkips | src/ropufu/algorithm/pathfinder.hpp:128 | neighbours that are all closed leave the search as it was |
| Pathfinders.SingleCellCounterexample | src/ropufu/algorithm/pathfinder.hpp:186-201 | on a one-cell grid the fresh search is in that last-step state for the source as target, and the one-cell path is a walk to it |
| Pathfinders.LastStepWithoutNeighbours | src/ropufu/algorithm/pathfinder.hpp:124-137 | a lone pending target with no neighbours is in the last-step state |
| Pathfinders.SingleCellWalk | src/ropufu/algorithm/pathfinder.hpp:186-201 | the one-cell path is a walk from the only cell to itself |
| Pathfinders.NoNeighbourInSingleCell | src/ropufu/algorithm/projector.hpp:215-242 | the only cell of a one-cell grid has no neighbour |
| Pathfinders.TraceBetween | src/ropufu/algorithm/pathfinder.hpp:40-48 | a source outside the grid is invalid_argument and a target outside it argument_out_of_domain; otherwise a path is returned exactly when the target is reachable, and no walk between the two is shorter |
| Pathfinders.TestWalkLevel | src/tests/pathfinder.hpp:33-42 | along a walk on the test grid from (2, 0), the breadth-first level of the last cell is at most the number of steps taken |
| Pathfinders.TestShortest | src/tests/pathfinder.hpp:39-53 | every walk from (2, 0) to (2, 2) on the test grid has at least 7 cells, the length of the expected path |
| Pathfinders.TestTrace | src/tests/pathfinder.hpp:39-66 | tracing from (2, 0) to (2, 2) on the test grid returns a walk of 7 cells |
| PartitionedVectors.BordersBounded | src/ropufu/partitioned_vector.hpp:36-37 | no border of a partition of n values exceeds n |
| PartitionedVectors.SortedUnique | src/ropufu/partitioned_vector.hpp:77-78 | two ascending border lists with the same elements are equal, so the outcome of the sort after push_back does not depend on the sort used |
| PartitionedVectors.SortPushed | src/ropufu/partitioned_vector.hpp:77-78 | sorting the borders right after push_back gives an ascending permutation of them |
| PartitionedVectors.JoinedPrefix | src/ropufu/partitioned_vector.hpp:36-96 | the first m blocks, one after the other, are exactly the values before border m |
| PartitionedVectors.BlocksCover | src/ropufu/partitioned_vector.hpp:36-96 | all blocks, in order, are exactly the values: the partition covers the vector with no gap and no overlap |
| PartitionedVectors.PartitionedVector.Empty | src/ropufu/partitioned_vector.hpp:35-44 | the default vector has no values, borders [0, 0] and block 0 active |
| PartitionedVectors.PartitionedVector.constructor | src/ropufu/partitioned_vector.hpp:47-60 | a vector from a container has its values and one block spanning all of them |
| PartitionedVectors.PartitionedVector.PartitionSize | src/ropufu/partitioned_vector.hpp:63 | the number of blocks is one less than the number of borders, and at least one |
| PartitionedVectors.PartitionedVector.ActivatePartition | src/ropufu/partitioned_vector.hpp:66-70 | an index that is not a block is out_of_range and changes nothing; otherwise that block becomes active |
| PartitionedVectors.PartitionedVector.Split | src/ropufu/partitioned_vector.hpp:73-79 | a border past the end is logic_error and changes nothing; otherwise the borders gain exactly that border, stay a valid ascending partition and count one block more |
| PartitionedVectors.PartitionedVector.ClearPartition | src/ropufu/partitioned_vector.hpp:81-87 | the borders go back to one block spanning all values, and block 0 is active |
| PartitionedVectors.PartitionedVector.Begin | src/ropufu/partitioned_vector.hpp:89-95 | the active block starts no later than it ends |
| PartitionedVectors.PartitionedVector.End | src/ropufu/partitioned_vector.hpp:90-96 | the active block ends within the values |
| PartitionedVectors.PartitionedVector.ActiveBlock | src/ropufu/partitioned_vector.hpp:89-96 | iterating from begin() to end() visits exactly the values of the active block, in order |
| PartitionedVectors.SortedEnds | src/ropufu/partitioned_vector.hpp:73-79 | adding a border within the values to valid borders and sorting gives valid borders again |
| PartitionedVectors.SplitAtEnd | src/tests/ropufu/partitioned_vector.hpp:71-80 | splitting at size() appends an empty last block, the one the library's test activates |
| Mat4Headers.WrapInt32 | src/ropufu/format/mat4_header.hpp:173-223 | static_cast to std::int32_t gives a 32-bit value, and leaves a value below 2^31 as it is |
| Mat4Headers.WrapCongruent | src/ropufu/format/mat4_header.hpp:222-223 | the cast keeps the value modulo 2^32 |
| Mat4Headers.TruncDiv | src/ropufu/format/mat4_header.hpp:90-93 | C++ integer division truncates toward zero, for negative dividends as well |
| Mat4Headers.DataTypeSizeById | src/ropufu/format/mat4_header.hpp:32-57 | the size is non-zero exactly for the ids of double, float, int32, int16, uint16 and uint8, and is then the sizeof of that type |
| Mat4Headers.Decomposed | src/ropufu/format/mat4_header.hpp:85-97 | building the three decomposed parts back gives the original id, whatever its sign |
| Mat4Headers.DecomposeBuild | src/ropufu/format/mat4_header.hpp:85-97 | decomposing a built id restores the parts when the format is a non-negative multiple of 1000, the type a multiple of 10 below 1000 and the matrix type below 10 |
| Mat4Headers.StandardIds | src/ropufu/format/mat4_header.hpp:18-97 | every combination of the library's formats, element types and matrix types survives building and decomposing |
| Mat4Headers.LittleEndianRoundTrip | src/ropufu/format/mat4_header.hpp:132-183 | a number below 256^n read back from its n little-endian bytes is itself |
| Mat4Headers.FromLittleEndianRoundTrip | src/ropufu/format/mat4_header.hpp:132-183 | n bytes are the little-endian encoding of the number they read as |
| Mat4Headers.Int32RoundTrip | src/ropufu/format/mat4_header.hpp:132-197 | decoding the four bytes of a 32-bit integer gives it back |
| Mat4Headers.DecodeEncodeInt32 | src/ropufu/format/mat4_header.hpp:132-197 | four bytes are the encoding of the integer they decode to |
| Mat4Headers.Encode | src/ropufu/format/mat4_header.hpp:183-203 | write puts 21 bytes plus the name on the stream |
| Mat4Headers.Parse | src/ropufu/format/mat4_header.hpp:116-162 | a failed read is io_error after at most five integers; a successful one consumes 21 bytes plus the name, with non-negative rows and columns and a NUL after the name |
| Mat4Headers.EncodeFields | src/ropufu/format/mat4_header.hpp:132-197 | the five integers of an encoding read back as the values written |
| Mat4Headers.ParseEncode | src/ropufu/format/mat4_header.hpp:116-206 | reading what write put on a stream, whatever follows it, gives the written values back and reports the size of the encoding |
| Mat4Headers.EncodeParse | src/ropufu/format/mat4_header.hpp:116-206 | read accepts a stream only when it starts with the encoding of the values it returns |
| Mat4Headers.ParsedFields | src/ropufu/format/mat4_header.hpp:132-153 | each value read comes from its own four bytes, the name from the bytes after them, followed by NUL |
| Mat4Headers.FromRaw | src/ropufu/format/mat4_header.hpp:155-159 | the fields read sets rebuild the id read, keep the dimensions and name, and set the complex flag exactly when the value read is non-zero |
| Mat4Headers.ToRaw | src/ropufu/format/mat4_header.hpp:172-176 | write puts the built id, the dimensions, 1 or 0 for the complex flag and the name on the stream |
| Mat4Headers.WriteRead | src/ropufu/format/mat4_header.hpp:116-206 | reading back a written header with non-negative dimensions restores the combined id, dimensions, flag and name, and every field when the ids have the library's shape |
| Mat4Headers.Mat4Header.constructor | src/ropufu/format/mat4_header.hpp:74-82 | the default header has every id and dimension 0, no name and no imaginary part |
| Mat4Headers.Mat4Header.Decompose | src/ropufu/format/mat4_header.hpp:88-97 | the three ids become the decomposition of the argument, which they build back to, and no other field changes |
| Mat4Headers.Mat4Header.Initialize | src/ropufu/format/mat4_header.hpp:210-226 | the ids become those of the format, element type and matrix type, the dimensions their 32-bit casts and the name the variable name; the complex flag stays |
| Mat4Headers.Mat4Header.Read | src/ropufu/format/mat4_header.hpp:116-162 | a stream not ready is io_error with nothing read; otherwise the outcome is that of parsing the bytes: on failure io_error and no field changes, on success the fields are those read and size() is returned |
| Mat4Headers.Mat4Header.Write | src/ropufu/format/mat4_header.hpp:168-206 | a stream not ready is io_error with nothing written; otherwise the encoding of the fields is written and size() returned (size at lines 250-253) |
| LibraryJson.Find | src/ropufu/noexcept_json.hpp:55-63 | a member is found exactly when the value is an object holding the key, and it is the value under that key |
| LibraryJson.GetInt | src/ropufu/noexcept_json.hpp:115-131 | a signed integer target accepts exactly the two kinds of integer, with their values |
| LibraryJson.GetSize | src/ropufu/noexcept_json.hpp:115-131 | a std::size_t target accepts exactly the unsigned integers, with their values |
| LibraryJson.GetString | src/ropufu/noexcept_json.hpp:65-76 | a std::string target accepts exactly the strings, with their text |
| LibraryJson.GetInts | src/ropufu/noexcept_json.hpp:170-186 | a std::vector target accepts exactly the arrays whose items are all integers, and holds their values item by item |
| LibraryJson.IntItems | src/ropufu/noexcept_json.hpp:176-183 | the item loop succeeds exactly when every item is an integer, and keeps the items' order |
| LibraryJson.IntPair | src/ropufu/noexcept_json.hpp:170-186 | a two-item array of integers reads as the pair of their values |
| LibraryJson.RequiredInt | src/ropufu/noexcept_json.hpp:212-218 | a required integer is read exactly when the key is present and its value reads as an integer |
| LibraryJson.RequiredSize | src/ropufu/noexcept_json.hpp:212-218 | a required size is read exactly when the key is present and its value reads as an unsigned integer |
| LibraryJson.RequiredString | src/ropufu/noexcept_json.hpp:212-218 | a required string is read exactly when the key is present and its value is a string |
| Intervals.Interval.constructor | src/ropufu/algebra/interval.hpp:51-55 | the default interval has both endpoints value-initialised to 0 |
| Intervals.Interval.Create | src/ropufu/algebra/interval.hpp:57-61 | a left endpoint beyond the right one is logic_error; otherwise a fresh interval with those endpoints |
| Intervals.Interval.ToJson | src/ropufu/algebra/interval.hpp:84-90 | what to_json writes is read back by try_get as the same endpoints |
| Intervals.Interval.Equals | src/ropufu/algebra/interval.hpp:67-72 | two intervals are equal exactly when their JSON forms are |
| Intervals.Interval.NotEquals | src/ropufu/algebra/interval.hpp:75 | != holds exactly when the JSON forms differ |
| Intervals.Interval.TryGetAsWritten | src/ropufu/algebra/interval.hpp:109-129 | try_get accepts exactly the values the serializer defines, and leaves in the target the endpoints it read, even when it refuses |
| Intervals.Interval.TryGet | src/ropufu/algebra/interval.hpp:109-129 | try_get accepts exactly the same values; on success the target holds the endpoints read, and on refusal it keeps its own, so it is always an interval |
| Intervals.ParsedOrdered | src/ropufu/algebra/interval.hpp:126 | every accepted pair has its left endpoint not beyond the right one |
| Intervals.WrittenOnSuccess | src/ropufu/algebra/interval.hpp:109-129 | on success the endpoints written are the ones accepted, whatever the target held before |
| Intervals.RoundTrip | src/ropufu/algebra/interval.hpp:84-128 | reading back the {"from", "to"} form gives the endpoints, and refuses a pair whose left endpoint is larger |
| Intervals.ArrayForm | src/ropufu/algebra/interval.hpp:111-119 | the array [a, b] reads as the interval from a to b when a <= b; an array of any other length is refused |
| Intervals.StaleEndpoints | src/ropufu/algebra/interval.hpp:111-126 | the array [2, 1] is refused, yet the target is left holding 2 and 1 |
| Intervals.HashConsistent | src/ropufu/algebra/interval.hpp:142-148 | equal intervals hash alike |
| DiscreteProcesses.AppendDistinct | src/ropufu/sequential/discrete_process.hpp:44-48 | appending an observer not yet in the list keeps the list free of repeats |
| DiscreteProcesses.DiscreteProcess.constructor | src/ropufu/sequential/discrete_process.hpp:26-27 | a new process has counted nothing and has no observers |
| DiscreteProcesses.DiscreteProcess.TryRegisterObserver | src/ropufu/sequential/discrete_process.hpp:42-50 | registration succeeds exactly when the observer is not null and not yet registered; it then appends the observer, and otherwise leaves the list as it was |
| DiscreteProcesses.DiscreteProcess.ClearObservers | src/ropufu/sequential/discrete_process.hpp:52-55 | the list of observers becomes empty and the count stays |
| DiscreteProcesses.DiscreteProcess.Clear | src/ropufu/sequential/discrete_process.hpp:58-63 | the count goes back to 0, the observers stay registered and each is reset exactly once |
| DiscreteProcesses.DiscreteProcess.Next | src/ropufu/sequential/discrete_process.hpp:69-75 | the generated value is returned, counted once and passed to every registered observer exactly once |
| DiscreteProcesses.DiscreteProcess.NextBlock | src/ropufu/sequential/discrete_process.hpp:78-83 | the count grows by the size of the block, and every registered observer receives the block exactly once |
| DiscreteProcesses.Observer.constructor | src/ropufu/sequential/discrete_process.hpp:22 | a new observer has received nothing |
| DiscreteProcesses.Observer.Observe | src/ropufu/sequential/discrete_process.hpp:73 | observing a value adds that call to the observer's log |
| DiscreteProcesses.Observer.ObserveBlock | src/ropufu/sequential/discrete_process.hpp:82 | observing a block adds that call to the observer's log |
| DiscreteProcesses.Observer.Reset | src/ropufu/sequential/discrete_process.hpp:62 | a reset adds that call to the observer's log |
| TransientProcesses.BlockSplit | src/ropufu/sequential/iid_transient_process.hpp:121-131 | for a block overlapping the change, the pre-change, under-change and post-change sizes add up to the block length, and the middle part is exactly the observations whose index is under change |
| TransientProcesses.ParsedOrdered | src/ropufu/sequential/iid_transient_process.hpp:222-228 | every accepted set of parameters has a change of at least one observation |
| TransientProcesses.ParsedExactlyOne | src/ropufu/sequential/iid_transient_process.hpp:213-222 | anything accepted holds exactly one of "change duration" and "last under-change index", and a duration of 0 is refused |
| TransientProcesses.WrittenOnSuccess | src/ropufu/sequential/iid_transient_process.hpp:204-234 | on success the parameters written are the ones accepted, whatever the target held before |
| TransientProcesses.RoundTrip | src/ropufu/sequential/iid_transient_process.hpp:177-234 | reading back what to_json writes gives the same parameters, when the distributions survive their own round trip |
| TransientProcesses.StaleIndices | src/ropufu/sequential/iid_transient_process.hpp:211-228 | a last index 3 before a first index 7 is refused, yet a default process is left holding indices 7 and 3 |
| TransientProcesses.TransientProcess.Default | src/ropufu/sequential/iid_transient_process.hpp:135-138 | the default process has the change at index 0 lasting one observation |
| TransientProcesses.TransientProcess.Create | src/ropufu/sequential/iid_transient_process.hpp:140-148 | a duration of 0 is logic_error; otherwise the change covers `duration` observations from the first index |
| TransientProcesses.TransientProcess.ChangeDuration | src/ropufu/sequential/iid_transient_process.hpp:156-158 | the change lasts at least one observation and ends at the last index |
| TransientProcesses.TransientProcess.Equals | src/ropufu/sequential/iid_transient_process.hpp:161-168 | two processes are equal exactly when their distributions and indices are |
| TransientProcesses.TransientProcess.OnNext | src/ropufu/sequential/iid_transient_process.hpp:101-106 | the observation is drawn from the under-change sampler exactly when its index lies between the first and last under-change indices |
| TransientProcesses.TransientProcess.OnNextBlock | src/ropufu/sequential/iid_transient_process.hpp:108-132 | every observation of a block is drawn from the sampler that single on_next calls would use for its index |
| TransientProcesses.TransientProcess.TryGetAsWritten | src/ropufu/sequential/iid_transient_process.hpp:204-234 | try_get accepts exactly the values the serializer defines, and leaves in the target every field it read, even when it refuses |
| TransientProcesses.TransientProcess.TryGet | src/ropufu/sequential/iid_transient_process.hpp:204-234 | try_get accepts exactly the same values; on success the target holds the parameters read, and on refusal it keeps its own, so the change never ends before it starts |
| TransientProcesses.EqualSchedules | src/ropufu/sequential/iid_transient_process.hpp:101-168 | equal processes draw every observation from the same sampler |
| TransientProcesses.FillRange | src/ropufu/sequential/iid_transient_process.hpp:128-130 | one fill loop sets exactly its range of the block and leaves the rest alone |
| SimpleVectors.SimpleVector.Empty | src/ropufu/simple_vector.hpp:158 | the default vector holds no elements |
| SimpleVectors.SimpleVector.constructor | src/ropufu/simple_vector.hpp:161-178 | a vector of a given size holds that many copies of the value, in fresh storage |
| SimpleVectors.SimpleVector.FromSeq | src/ropufu/simple_vector.hpp:181-191 | a vector from a container holds the container's elements, in order, in fresh storage |
| SimpleVectors.SimpleVector.Copy | src/ropufu/simple_vector.hpp:193-207 | a copy holds the other vector's elements in storage of its own |
| SimpleVectors.SimpleVector.Move | src/ropufu/simple_vector.hpp:133-139 | the new vector takes over the other's storage and elements; the other is left without storage |
| SimpleVectors.SimpleVector.MoveAssign | src/ropufu/simple_vector.hpp:141-153 | the vector takes over the other's storage and the other is left without any, so a vector moved into itself ends up with none |
| SimpleVectors.SimpleVector.CopyAssignAsWritten | src/ropufu/simple_vector.hpp:224-251 | for every vector the as-written code handles: one with storage, or one moved from whose size differs from the other's, afterwards holds the other's elements, reusing its storage when the sizes agree; one moved from with size 0, assigned a vector of size 0, copies nothing and stays without storage; the other is unchanged; self-assignment changes nothing |
| SimpleVectors.SimpleVector.CopyAssign | src/ropufu/simple_vector.hpp:224-251 | the corrected assignment: also a vector moved from, of any size, ends up holding the other's elements in fresh storage; a vector with storage of the other's size reuses it; the other is unchanged |
| SimpleVectors.MovedFromReuse | src/ropufu/simple_vector.hpp:133-139 | a vector moved from keeps its size 2 and loses its storage, so copying a vector of size 2 into it is outside what the as-written assignment handles, while the corrected one leaves it holding the copy |
| SimpleVectors.MovedFromEmptyCopy | src/ropufu/simple_vector.hpp:228-246 | a vector of size 0 moved from and assigned a vector of size 0 is within what the as-written assignment handles: the copying loop runs zero times and the vector stays without storage |
| SimpleVectors.SimpleVector.Fill | src/ropufu/simple_vector.hpp:253-265 | every element becomes the value and the size stays |
| SimpleVectors.SimpleVector.Size | src/ropufu/simple_vector.hpp:268 | the size is the number of elements |
| SimpleVectors.SimpleVector.IsEmpty | src/ropufu/simple_vector.hpp:271 | empty() holds exactly when there are no elements |
| SimpleVectors.SimpleVector.Get | src/ropufu/simple_vector.hpp:295-298 | an index within the vector gives the element at that position |
| SimpleVectors.SimpleVector.Front | src/ropufu/simple_vector.hpp:276-279 | front() of a non-empty vector is its first element |
| SimpleVectors.SimpleVector.Back | src/ropufu/simple_vector.hpp:281-284 | back() of a non-empty vector is its last element |
| SimpleVectors.SimpleVector.At | src/ropufu/simple_vector.hpp:300-315 | an index past the end is out_of_range; otherwise the element at that position |
| SimpleVectors.SimpleVector.GetHash | src/ropufu/simple_vector.hpp:317-328 | the hash loop computes the fold of exclusive-or and shift over the elements in order |
| SimpleVectors.SimpleVector.Cast | src/ropufu/simple_vector.hpp:209-222 | the cast vector has the same size and holds each element converted, at the same position |
| SimpleVectors.HashAppend | src/ropufu/simple_vector.hpp:322-326 | hashing a + b is hashing b starting from the value a leaves, so the loop can be split anywhere |
| SimpleVectors.HashEven | src/ropufu/simple_vector.hpp:325 | the lowest bit of a non-trivial hash is always clear, as the last step is a shift |
| SimpleVectors.FillArray | src/ropufu/simple_vector.hpp:175-177 | the filling loop sets every element to the value (the same loop at lines 263-264) |
| SimpleVectors.CopyInto | src/ropufu/simple_vector.hpp:240-246 | the copying loop leaves the destination equal to the source, which it does not change |

## Left out

- `Program.cs` and `JsonSchema.cs` are not part of this model. They do file and console I/O and System.Text.Json deserialisation. A schema is a datatype holding the fields the generator reads. A JSON element is `JsonModel.JsonValue`, whose number text is kept abstract, so Int64 and Double formatting are not modelled.
- `CppIntegerSchema`, `CppNumberSchema`, `CppNullSchema`, `CppBooleanSchema`, `CodeLine` and `HppInclude` are not part of this model.
  - The primitive kinds' default typenames and their Parse results are parameters.
  - Include headers are ordered by ordinal comparison of the header text.
- The clock and the GUID that `HppGenerator` writes into the banner and the include guard are parameters.
- Null references are not representable, except strings the source allows to be null (`Option<string>`). The `ArgumentNullException` paths for null lists or builders are not modelled.
- `Char.IsUpper`, `Char.IsLower`, `Char.IsWhiteSpace` and `ToLowerInvariant` are modelled on ASCII only. Unicode categories and culture rules are not modelled.
- Generated names are built with the corrected `Extenders.SnakeCase`. As written, `ToSnakeCase` writes `_` before every upper-case letter, even right after a separator has written one, so the result can hold a double underscore (Findings row 1). For example, property `item2Count` gives `item__count()` and `m_item__count` in the program, and `item_count()` and `m_item_count` here. Each member below carries the corrected names; the lines name what is affected.
- ICppSchema.FieldNameSpec: the method and field names of a property use the corrected `SnakeCase`, not `ToSnakeCase` as written (see the line on generated names).
- CppStringSchema.InvalidateOverride: the reserved-name test on each permissible value use the corrected `SnakeCase`, not `ToSnakeCase` as written (see the line on generated names).
- CppSchemaBase.InvalidateOverride: the reserved-name test of a string schema use the corrected `SnakeCase`, not `ToSnakeCase` as written (see the line on generated names).
- HppGenerator.UnitTextLines: the include guard use the corrected `SnakeCase`, not `ToSnakeCase` as written (see the line on generated names).
- HppGenerator.ToText: the include guard use the corrected `SnakeCase`, not `ToSnakeCase` as written (see the line on generated names).
- HppGenerator.Assemble: the include guard (namespace `ropufu::Tests` gives `ROPUFU_TESTS_` here and `ROPUFU__TESTS_` in the program) use the corrected `SnakeCase`, not `ToSnakeCase` as written (see the line on generated names).
- HppEnumGenerator.MakeStructBody: the names of the static instances use the corrected `SnakeCase`, not `ToSnakeCase` as written (see the line on generated names).
- HppEnumGenerator.AppendStruct: the names of the static instances it declares use the corrected `SnakeCase`, not `ToSnakeCase` as written (see the line on generated names).
- HppEnumGenerator.MakeInner: the names of the static instances use the corrected `SnakeCase`, not `ToSnakeCase` as written (see the line on generated names).
- HppEnumGenerator.GeneratedDiscriminants: the names of the static instances use the corrected `SnakeCase`, not `ToSnakeCase` as written (see the line on generated names).
- HppStructGenerator.MakeTypedefs: the typedef names use the corrected `SnakeCase`, not `ToSnakeCase` as written (see the line on generated names).
- HppStructGenerator.TypedefSpec: the typedef names use the corrected `SnakeCase`, not `ToSnakeCase` as written (see the line on generated names).
- HppStructGenerator.AppendPropertyClauses: the field names in the validation clauses use the corrected `SnakeCase`, not `ToSnakeCase` as written (see the line on generated names).
- HppStructGenerator.AppendPropertyClause: the field name in the validation clauses use the corrected `SnakeCase`, not `ToSnakeCase` as written (see the line on generated names).
- HppStructGenerator.MakeNoexceptValidation: the field names in the validation clauses use the corrected `SnakeCase`, not `ToSnakeCase` as written (see the line on generated names).
- HppStructGenerator.RequiredArguments: the argument names and initializers use the corrected `SnakeCase`, not `ToSnakeCase` as written (see the line on generated names).
- HppStructGenerator.BaseConstructorCalls: the argument names passed to the base constructors use the corrected `SnakeCase`, not `ToSnakeCase` as written (see the line on generated names).
- HppStructGenerator.MakeConstructors: the argument names and initializers use the corrected `SnakeCase`, not `ToSnakeCase` as written (see the line on generated names).
- HppStructGenerator.AppendExplicitConstructor: the argument names and initializers use the corrected `SnakeCase`, not `ToSnakeCase` as written (see the line on generated names).
- HppStructGenerator.ConstructorsSpec: the argument names and initializers use the corrected `SnakeCase`, not `ToSnakeCase` as written (see the line on generated names).
- HppStructGenerator.MakePropertyAccessors: the getter, setter and field names use the corrected `SnakeCase`, not `ToSnakeCase` as written (see the line on generated names).
- HppStructGenerator.AccessorSpec: the getter, setter and field names use the corrected `SnakeCase`, not `ToSnakeCase` as written (see the line on generated names).
- HppStructGenerator.OptionalJsonLine: the `jstr_` key and field names use the corrected `SnakeCase`, not `ToSnakeCase` as written (see the line on generated names).
- HppStructGenerator.AppendOptionalJson: the `jstr_` key and field names use the corrected `SnakeCase`, not `ToSnakeCase` as written (see the line on generated names).
- HppStructGenerator.AppendOptionalBlock: the `jstr_` key and field names use the corrected `SnakeCase`, not `ToSnakeCase` as written (see the line on generated names).
- HppStructGenerator.MakeNlohmannUtils: the `jstr_` key and field names use the corrected `SnakeCase`, not `ToSnakeCase` as written (see the line on generated names).
- HppStructGenerator.OptionalJsonSpec: the `jstr_` key and field names use the corrected `SnakeCase`, not `ToSnakeCase` as written (see the line on generated names).
- HppStructGenerator.AppendFields: the field names use the corrected `SnakeCase`, not `ToSnakeCase` as written (see the line on generated names).
- HppStructGenerator.AppendHead: the typedef, `jstr_` key and field names use the corrected `SnakeCase`, not `ToSnakeCase` as written (see the line on generated names).
- HppStructGenerator.AppendInterior: the field, accessor and key names use the corrected `SnakeCase`, not `ToSnakeCase` as written (see the line on generated names).
- HppStructGenerator.AssembleStructBody: every name derived from a property use the corrected `SnakeCase`, not `ToSnakeCase` as written (see the line on generated names).
- HppStructGenerator.MakeStructBody: every name derived from a property use the corrected `SnakeCase`, not `ToSnakeCase` as written (see the line on generated names).
- HppStructGenerator.InheritedOmitted: the field names and initializers use the corrected `SnakeCase`, not `ToSnakeCase` as written (see the line on generated names).
- HppStructGenerator.MakeNoexceptJson: the key and field names in the read lines use the corrected `SnakeCase`, not `ToSnakeCase` as written (see the line on generated names).
- HppStructGenerator.TryGetSpec: the key and field names in the read lines use the corrected `SnakeCase`, not `ToSnakeCase` as written (see the line on generated names).
- HppStructGenerator.MakeHash: the field names hashed use the corrected `SnakeCase`, not `ToSnakeCase` as written (see the line on generated names).
- HppStructGenerator.HashSpec: the field names hashed use the corrected `SnakeCase`, not `ToSnakeCase` as written (see the line on generated names).
- HppStructGenerator.MakePieces: every name derived from a property use the corrected `SnakeCase`, not `ToSnakeCase` as written (see the line on generated names).
- HppStructGenerator.MakeInner: every name derived from a property use the corrected `SnakeCase`, not `ToSnakeCase` as written (see the line on generated names).
- CppSchemaBase.ConvertProperties: places the properties with the corrected `Place`: the required ones in declared order, then the optional ones. As written, each required property is inserted at index 0, so they come out reversed (Findings row 2); this order is the order of constructor arguments, fields and JSON lines.
- CppSchemaBase.Push: is the corrected placement step. `CppObjectSchema.PlacedAsWritten` models the insertion at index 0.
- CppSchemaBase.PlacedStep: states the corrected placement step, not the insertion at index 0 (see `CppSchemaBase.ConvertProperties`).
- CppSchemaBase.FoldIsListOf: proves the corrected loop yields the required properties in declared order; as written they are reversed (see `CppSchemaBase.ConvertProperties`).
- CppSchemaBase.ConvertObjectParts: its properties come from the corrected `CppSchemaBase.ConvertProperties`, so two or more required properties are in declared order, not reversed.
- CppSchemaBase.NewObjectSchema: its property list is in the corrected order (see `CppSchemaBase.ConvertProperties`).
- CppSchemaBase.ToCppType: an object schema carries the corrected property order (see `CppSchemaBase.ConvertProperties`).
- CppArraySchema.MoreValidationFormat: builds the item clauses with the corrected `ItemClause`. As written, a nested validating array's clause is un-escaped once too often and leaves a lone `{` that String.Format rejects (Findings row 3); here it stays a valid format.
- Pathfinders.TraceBetween: runs the corrected `Pathfinder.Trace`. As written, the free `trace` inherits both defects of the member `trace`: a target closed by the last expand is reported as `host_unreachable` (on a one-cell grid with source = target), and a re-routed cell keeps its old key, so the returned path need not be shortest (see Findings).
- Pathfinders.Pathfinder.Trace: promises a shortest path only on a freshly constructed pathfinder; a second `trace` to another target goes on with entries keyed by the distance to the first target, and the model states only that the path is a walk then.
- Pathfinders.TestTrace: states the length of the test's expected path, not its cells; which of several shortest paths comes back depends on the order of equal keys and of the neighbours, and evaluating the whole search on the test grid is not part of the proof.
- HppGenerator.Check: sends an object schema to `CppObjectSchema.Invalidate`, the check the struct generator evidently needs. As written, `HppGenerator<T>` is generic with `T : ICppSchema` (`HppGenerator.cs:7-8`), so the two-argument call at `HppGenerator.cs:28` is resolved against the interface and never reaches the overloads of `CppObjectSchema`. `ICppSchema.cs` as it stands declares neither `Invalidate` nor `Definitions`, so `HppGenerator.cs:28`, `:31` and `CppSchemaBase.cs:179` need a fuller interface; the model takes one whose two-argument `Invalidate` only `CppSchemaBase.Invalidate` (`CppSchemaBase.cs:172-174`) implements. That method throws NotSupportedException for every object schema, because `CppObjectSchema` does not override DoesSupportCodeGeneration (`CppSchemaBase.cs:26`); see Findings. `Program.cs:123` already skips object schemas before any generator is built, so the program itself never reaches this path. The model's generators follow the corrected check.
- HppGenerator.MakeGenerator: a struct generator is built whenever the object checks accept the schema. As written, construction fails for every object schema (see the `HppGenerator.Check` line).
- HppGenerator.NewGenerator: uses the corrected check, as `HppGenerator.MakeGenerator` does.
- `CppArraySchema` reads its item kind before `ValidateJsonSchema` sets it. That enumeration's default member is not shown, and the model takes it to be `Null`.
- CppSchemaBase.Invalidate: the warnings collected from the definitions are overwritten by the kind's own check (CppSchemaBase.cs:183). This is modelled as written, and `InvalidateResultSpec` proves a success carries no warning. Every definition passing the common check yields no warning, so nothing is lost within this model.
- HppStructGenerator.MakeHash: emits the shift expression exactly as the generator writes it. `Shift` and `ShiftDistinct` state the intended spread (see Findings).
- HppEnumGenerator.MakeNoexceptJson: emits `try_get` as the generator writes it. `TryGet` and `TryGetSpec` state the intended behaviour (see Findings).
- Fixed-width integers are not modelled. Integers are unbounded unless the width matters and is made explicit (MAT v4 casts, hashes). In particular this covers:
  - overflow in `fraction` arithmetic;
  - the `numerator + denominator` limit that `fraction_away_from_zero` documents;
  - `std::size_t` products in `matrix_arrangement`;
  - the 64-bit width of the masks in `elementwise`.
- Elementwise.Permutation: `std::sort` is modelled by an insertion sort. Both require a strict weak order, and the model proves the result is a permutation ordered by the comparer. The exact order of equivalent elements is unspecified for `std::sort`.
- Arithmetic.LogBaseN: requires a base of magnitude at least 2 unless the number is 0. A base of 0 divides by zero in the source, and a base of ±1 never ends for a non-zero number.
- Fractions.Fraction.Simplify: requires a non-zero denominator. With a zero denominator and a zero numerator the source divides by a gcd of 0.
- The free `k / x` of `fraction` (fraction.hpp:200) is not modelled: it calls `invert()` with no argument, which the class does not declare (only `invert(std::error_code&)`), so it does not compile once used.
- The `std::hash` of `fraction` is not modelled: it XORs the `std::hash` of the numerator and of the denominator, and `std::hash` of an integer is implementation-defined.
- Projectors.NeighborsOverride: requires the source cell to be in the grid, as every call from the pathfinder is.
- Pathfinders.Pathfinder.constructor: requires the source in the grid. The source's path for an invalid source (set `invalid_argument`, move it to row and column 0, go on) is modelled by `Create`, which reports the error. The free `trace` stops there too.
- Mat4Headers.Mat4Header.Write: requires a name shorter than 2^31 - 1 bytes, so that its length plus one fits the `int32` field. Stream failures part-way through a write or read are modelled only as a stream that is not ready or that ends early.
- MAT v4 stream I/O is not modelled. A stream is a byte sequence plus a readiness flag, and `write` returns the bytes it would put on the stream.
- `empirical_measure` is modelled only for its counting side:
  - `pmf`, `cdf`, `percentile`, `max_probability`, `mean`, `compute_variance`, the standard deviation and the streaming `operator<<` are not modelled, because they compute floating-point values;
  - the unordered-map variant is not modelled.
- Statistics and thresholds of the stopping rules are integers here. The source is generic in the value type, and its tests use `double`. The lines below name what this leaves out.
- StoppingTimes.StoppingTime.Of: the check "Thresholds must be finite." (stopping_time.hpp:84-90) has no counterpart, because every integer is finite; NaN and infinite thresholds are not modelled.
- StoppingTimes.StoppingTime.CheckForStopping: compares integers exactly; floating-point comparison with NaN statistics is not modelled.
- OneSidedStoppingTimes.OneSidedStoppingTime.constructor: takes integer thresholds, so the finiteness of a floating-point threshold is not at issue.
- Cusums.Cusum.UpdateStatistic: adds exactly; the rounding of `max(previous, 0) + value` in floating point is not modelled.
- WindowLimitedCusums.WindowLimitedCusum.UpdateStatistic: adds exactly; the rounding of the window sums in floating point is not modelled.
- Cusums and WindowLimitedCusums: the JSON serialisation (`to_json`, `from_json`, `noexcept_json`) and the `std::hash` of the charts are not modelled; they read and write floating-point thresholds and the window size through the JSON library.
- Distributions, samplers and random engines are not modelled. The sampler an observation is drawn from is returned as a value (`NoChange`/`UnderChange`). Generated values are arguments.
- `seed` is not modelled.
- Observers are not modelled beyond registration (`observer.hpp` is not part of this model). An observer is the log of the calls it receives.
- The `std::hash` of `iid_transient_process` is not modelled; it hashes floating-point distribution parameters.
- `noexcept_json` is modelled only for the queries the library's serializers make.
- Projectors: `height_override`, `width_override`, the traits and `make_matrix_projector` are not modelled; they only forward the grid's dimensions. The blocked indicator is modelled for `bool` cells.
- `simple_vector`'s allocator, its `wipe` module and iteration over raw addresses are not modelled. Storage is an array, and missing storage is a null array.
- SlidingArrays.SlidingVector.MoveFrom: requires the other vector to be a different one; a self-move (`v = std::move(v)`) moves the buffer onto itself, which the C++ standard leaves unspecified for std::vector.
- EmpiricalMeasures.EmpiricalMeasure.UpdateFields: the sum grows by repeat * key exactly; the source keeps the sum in an unsigned 64-bit `sum_type`, so negative keys and large sums wrap modulo 2^64 there.

## Findings

| source | as written | input that shows it | evidently intended | confidence | as-written member | corrected member |
|---|---|---|---|---|---|---|
| src/JsonSchemaToHpp/Extenders.cs:28-35 | an upper-case letter after an underscore adds a second underscore although multiple underscores were not allowed | `ToSnakeCase("a_B", false)` gives `"a__b"` | no double underscore unless allowed | not executed | Extenders.SnakeCaseDoubleUnderscore | Extenders.SnakeCaseShape |
| src/JsonSchemaToHpp/CppObjectSchema.cs:78-82 | required properties are inserted at index 0, which reverses their declared order | required `first`, `second` are placed as `second`, `first` | required properties in declared order, before the optional ones | not executed | CppObjectSchema.RequiredOrderExample | CppObjectSchema.Placed |
| src/JsonSchemaToHpp/CppArraySchema.cs:44-46 | an item clause of a nested validating array has its braces un-escaped once too often | the inner loop's `{{` becomes `{`, which String.Format rejects | item clauses stay valid one-parameter formats | not executed | CppArraySchema.ItemClauseAsWrittenBreaksNesting | CppArraySchema.ItemClauseSpec |
| src/JsonSchemaToHpp/HppStructGenerator.cs:495-507 | the total shift width is `sizeof` (bytes), so every shift is below 8 | with 9 fields, fields 0 and 8 both get shift 0 | shifts spread over the 64 bits of the result | not executed | HppStructGenerator.ShiftAsWrittenCollides | HppStructGenerator.ShiftDistinct |
| src/JsonSchemaToHpp/HppGenerator.cs:28 | `HppGenerator<T>` has `T : ICppSchema` (:7-8), so `Invalidate(this.ReservedNames, out warnings)` is resolved against the interface, not `CppObjectSchema`; with the interface this call needs, its only two-argument implementation is `CppSchemaBase.Invalidate` (`CppSchemaBase.cs:172-174`), which throws because `CppObjectSchema` does not override DoesSupportCodeGeneration (`CppSchemaBase.cs:26`); `Program.cs:123` skips object schemas before this point | any object schema handed to `HppStructGenerator` | a struct generator checks its schema with the object checks | not executed | HppGenerator.StructsRejectedAsWritten | HppGenerator.CheckedSpec |
| src/JsonSchemaToHpp/HppEnumGenerator.cs:153-159 | the generated `try_get` parses into the target as it is, so a previous value survives | values `["red"]`, text `"blue"`, target already `red`: `try_get` succeeds | succeed exactly on the permissible values | not executed | HppEnumGenerator.StaleTryGet | HppEnumGenerator.TryGetSpec |
| src/ropufu/algebra/fraction.hpp:95-101 | the constructor reports a zero denominator after storing it | a fraction built as 0/0 is `==` to 1/1 and to 2/1, which are not equal to each other | a rejected fraction keeps a non-zero denominator, so `==` stays transitive | not executed | Fractions.ZeroDenominatorBreaksEquality | Fractions.Fraction.FromRatio |
| src/ropufu/algebra/fraction.hpp:201-208 | `/=` multiplies the numerator before reading the divisor's numerator, which is the same object for `x /= x` | x = 2/3: `x /= x` gives 1/3 | x / x == 1 | not executed | Fractions.SelfDivisionAsWritten | Fractions.Fraction.Divide |
| src/ropufu/algorithm/pathfinder.hpp:186-201 | the loop ends when nothing is pending, without looking at the target once more | 1x1 grid, source = target: `trace` reports `host_unreachable` | a path exactly when the target is reachable | not executed | Pathfinders.SingleCellCounterexample | Pathfinders.Pathfinder.Trace |
| src/ropufu/algebra/interval.hpp:109-129 | `try_get` writes the endpoints into the target before checking their order | `[2, 1]` is refused, yet leaves the target as 2--1 | a refused value leaves the interval unchanged | not executed | Intervals.StaleEndpoints | Intervals.Interval.TryGet |
| src/ropufu/sequential/iid_transient_process.hpp:204-234 | `try_get` writes the indices into the target before checking their order | first 7, last 3 is refused, yet leaves the process with first 7, last 3 | a refused value leaves the process unchanged | not executed | TransientProcesses.StaleIndices | TransientProcesses.TransientProcess.TryGet |
| src/tests/algebra/elementwise.hpp:66 | the z-first comparer of the permutation test returns true for ('z', 'z'), which breaks the strict weak order std::sort requires | comparing 'z' with itself | `one == 'z' && other != 'z'` for the first case | not executed | Elementwise.ZFirstNotStrict | Elementwise.ZFirstPermutation |
| src/ropufu/algorithm/pathfinder.hpp:132-136 | a re-routed open cell gets its lower cost but keeps its entry under the old estimate, so the multimap no longer pops cells in order of cost plus distance | 4x9 grid with cells (0, 6), (1, 1), (1, 4), (1, 6), (2, 2), (2, 7) blocked, source (1, 0), target (0, 7): the search closes the target through a stale route of 16 steps while a walk of 14 steps exists | erase the cell's entry and emplace it again under the new estimate, so the returned path is a shortest one | not executed | Pathfinders.StaleKey | Pathfinders.Pathfinder.Trace |
| src/ropufu/simple_vector.hpp:228-246 | copy assignment allocates fresh storage only when the sizes differ, but a vector moved from keeps its size and has a null pointer, so when both sizes are equal and positive the copy writes through that null pointer (with both sizes 0 the loop runs zero times) | a vector of size 2 moved from, then assigned a copy of another vector of size 2 | a vector without storage gets fresh storage before the copy | not executed | SimpleVectors.MovedFromReuse | SimpleVectors.SimpleVector.CopyAssign |
