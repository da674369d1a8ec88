/** CppObjectSchema: the object-specific parts of schema conversion (the order
 *  and counts of the properties, the literal of a default value, and the
 *  checks made before a structure header is generated). The recursive
 *  conversion of the properties and nested definitions lives in CppSchemaBase. */
module CppObjectSchema {
  import opened Errors
  import opened JsonModel
  import opened Extenders
  import opened ICppSchema

  /** ParseOverride: no value gives `{}`; an object default is not supported;
   *  any other value is a FormatException. */
  function ParseOverride(value: JsonValue): (r: Result<string>)
    ensures value.Undefined? <==> r == Ok("{}")
    ensures value.JsonObject? <==> r == Err(NotSupported)
    ensures r.Ok? || r.failure == NotSupported || r.failure == FormatError
  {
    match value
    case Undefined => Ok("{}")
    case JsonObject(_) => Err(NotSupported)
    case _ => Err(FormatError)
  }

  // ---------------------------------------------------------------------------
  // Template parameters and base classes
  // ---------------------------------------------------------------------------

  /** The constructor's loop over "hppTemplates": each one trimmed. */
  method TrimTemplates(xs: seq<HppTemplate>) returns (r: seq<HppTemplate>)
    ensures |r| == |xs|
    ensures forall k :: 0 <= k < |xs| ==> r[k] == TrimmedTemplate(xs[k])
  {
    r := [];
    var k := 0;
    while k < |xs|
      invariant 0 <= k <= |xs| && |r| == k
      invariant forall j :: 0 <= j < k ==> r[j] == TrimmedTemplate(xs[j])
    {
      r := r + [TrimmedTemplate(xs[k])];
      k := k + 1;
    }
  }

  /** One entry of "hppInherits" trimmed: a null entry, or one whose name is
   *  empty after trimming, becomes null. */
  function TrimmedInheritEntry(x: Option<HppInherit>): (r: Option<HppInherit>)
    ensures r.Some? <==> x.Some? && TrimNullify(x.value.name).Some?
    ensures r.Some? ==> r.value == TrimmedInherit(x.value)
  {
    if x.None? then None
    else
      var t := TrimmedInherit(x.value);
      if t.name.None? then None else Some(t)
  }

  /** The constructor's loop over "hppInherits". */
  method TrimInherits(xs: seq<Option<HppInherit>>) returns (r: seq<Option<HppInherit>>)
    ensures |r| == |xs|
    ensures forall k :: 0 <= k < |xs| ==> r[k] == TrimmedInheritEntry(xs[k])
  {
    r := [];
    var k := 0;
    while k < |xs|
      invariant 0 <= k <= |xs| && |r| == k
      invariant forall j :: 0 <= j < k ==> r[j] == TrimmedInheritEntry(xs[j])
    {
      r := r + [TrimmedInheritEntry(xs[k])];
      k := k + 1;
    }
  }

  // ---------------------------------------------------------------------------
  // Property order
  // ---------------------------------------------------------------------------

  /** The required properties among `items`, in their declared order. */
  function RequiredOf(items: seq<CppSchema>): (r: seq<CppSchema>)
    ensures |r| <= |items|
    ensures forall k :: 0 <= k < |r| ==> r[k].isPropertyRequired
  {
    if items == [] then []
    else
      var last := items[|items| - 1];
      RequiredOf(items[..|items| - 1]) + (if last.isPropertyRequired then [last] else [])
  }

  /** The optional properties among `items`, in their declared order. */
  function OptionalOf(items: seq<CppSchema>): (r: seq<CppSchema>)
    ensures |r| <= |items|
    ensures forall k :: 0 <= k < |r| ==> !r[k].isPropertyRequired
  {
    if items == [] then []
    else
      var last := items[|items| - 1];
      OptionalOf(items[..|items| - 1]) + (if last.isPropertyRequired then [] else [last])
  }

  /** Every property is either required or optional. */
  lemma {:induction false} SplitCounts(items: seq<CppSchema>)
    ensures |RequiredOf(items)| + |OptionalOf(items)| == |items|
    ensures multiset(RequiredOf(items) + OptionalOf(items)) == multiset(items)
  {
    if items != [] {
      var init := items[..|items| - 1];
      SplitCounts(init);
      assert items == init + [items[|items| - 1]];
    }
  }

  /** Every required or optional property is one of `items`, and every one
   *  of `items` is required or optional. */
  lemma {:induction false} SplitMembers(items: seq<CppSchema>)
    ensures forall p :: p in RequiredOf(items) ==> p in items
    ensures forall p :: p in OptionalOf(items) ==> p in items
    ensures forall p :: p in items ==> p in RequiredOf(items) || p in OptionalOf(items)
  {
    if items != [] {
      var init := items[..|items| - 1];
      SplitMembers(init);
      assert items == init + [items[|items| - 1]];
    }
  }

  /** One step of the constructor's loop over the properties, as written:
   *  a required property is inserted at index 0, an optional one appended. */
  function PlaceAsWritten(properties: seq<CppSchema>, item: CppSchema): seq<CppSchema> {
    if item.isPropertyRequired then [item] + properties else properties + [item]
  }

  /** One step of the constructor's loop over the properties, as evidently
   *  intended: a required property is inserted after the required properties
   *  placed so far, an optional one appended. */
  function Place(properties: seq<CppSchema>, countRequired: nat, item: CppSchema): seq<CppSchema>
    requires countRequired <= |properties|
  {
    if item.isPropertyRequired
    then properties[..countRequired] + [item] + properties[countRequired..]
    else properties + [item]
  }

  /** The property list after the loop has placed all of `items`, as written. */
  function PlacedAsWritten(items: seq<CppSchema>): seq<CppSchema> {
    if items == [] then []
    else PlaceAsWritten(PlacedAsWritten(items[..|items| - 1]), items[|items| - 1])
  }

  /** The property list after the loop has placed all of `items`: the required
   *  properties in their declared order, then the optional ones in theirs. */
  function Placed(items: seq<CppSchema>): (r: seq<CppSchema>)
    ensures r == RequiredOf(items) + OptionalOf(items)
  {
    if items == [] then []
    else
      var init := items[..|items| - 1];
      var last := items[|items| - 1];
      var r := Place(Placed(init), |RequiredOf(init)|, last);
      assert Placed(init)[..|RequiredOf(init)|] == RequiredOf(init);
      assert Placed(init)[|RequiredOf(init)|..] == OptionalOf(init);
      r
  }

  function Reverse<T>(s: seq<T>): (r: seq<T>)
    ensures |r| == |s|
  {
    if s == [] then [] else Reverse(s[1..]) + [s[0]]
  }

  lemma {:induction false} ReverseAppendOne<T>(s: seq<T>, x: T)
    ensures Reverse(s + [x]) == [x] + Reverse(s)
  {
    if s != [] {
      assert (s + [x])[1..] == s[1..] + [x];
      ReverseAppendOne(s[1..], x);
    } else {
      assert Reverse([x]) == Reverse([x][1..]) + [x];
    }
  }

  /** As written, the required properties come out in the reverse of their
   *  declared order, ahead of the optional ones in declared order. */
  lemma {:induction false} PlacedAsWrittenReverses(items: seq<CppSchema>)
    ensures PlacedAsWritten(items) == Reverse(RequiredOf(items)) + OptionalOf(items)
  {
    if items != [] {
      var init, last := items[..|items| - 1], items[|items| - 1];
      PlacedAsWrittenReverses(init);
      var req, opt := RequiredOf(init), OptionalOf(init);
      assert PlacedAsWritten(items) == PlaceAsWritten(Reverse(req) + opt, last);
      if last.isPropertyRequired {
        assert RequiredOf(items) == req + [last] && OptionalOf(items) == opt;
        FrontReversed(req, opt, last);
      } else {
        assert RequiredOf(items) == req + [] == req && OptionalOf(items) == opt + [last];
        BackAppended(Reverse(req), opt, last);
      }
    }
  }

  /** A required property put in front of the reversed required ones. */
  lemma FrontReversed(req: seq<CppSchema>, opt: seq<CppSchema>, last: CppSchema)
    ensures [last] + (Reverse(req) + opt) == Reverse(req + [last]) + opt
  {
    ReverseAppendOne(req, last);
    assert [last] + (Reverse(req) + opt) == ([last] + Reverse(req)) + opt;
  }

  /** An optional property appended after the optional ones. */
  lemma BackAppended<T>(a: seq<T>, b: seq<T>, x: T)
    ensures (a + b) + [x] == a + (b + [x])
  {
  }

  /** Two required properties "first" and "second", declared in that order,
   *  end up as second-first as written and first-second once corrected. */
  lemma RequiredOrderExample(first: CppSchema, second: CppSchema)
    requires first.isPropertyRequired && second.isPropertyRequired && first != second
    ensures PlacedAsWritten([first, second]) == [second, first]
    ensures Placed([first, second]) == [first, second]
  {
    assert [first, second][..1] == [first];
    assert [first][..0] == [];
    assert PlacedAsWritten([first]) == [first];
    assert RequiredOf([first]) == [first];
    assert OptionalOf([first]) == [];
  }

  // ---------------------------------------------------------------------------
  // Invalidate
  // ---------------------------------------------------------------------------

  predicate TemplatesNamed(x: CppSchema) {
    forall k :: 0 <= k < |x.Templates()| ==> x.Templates()[k].key.Some? && x.Templates()[k].name.Some?
  }

  predicate IncludesHaveHeaders(x: CppSchema) {
    forall k :: 0 <= k < |x.includes| ==> x.includes[k].header.Some?
  }

  predicate InheritsNamed(x: CppSchema) {
    forall k :: 0 <= k < |x.Inherits()| ==> x.Inherits()[k].Some?
  }

  /** At least one property, and no inherited property with a non-trivial default. */
  predicate PropertiesAcceptable(x: CppSchema) {
    |x.Properties()| > 0
    && forall k :: 0 <= k < |x.Properties()| ==>
      x.Properties()[k].isPropertyInherited ==> x.Properties()[k].isDefaultValueTrivial
  }

  /** What Invalidate accepts: a namespace, named template parameters, include
   *  headers and base classes, acceptable properties, and acceptable nested
   *  definitions. */
  predicate ObjectValid(x: CppSchema) {
    x.namespace.Some? && TemplatesNamed(x) && IncludesHaveHeaders(x) && InheritsNamed(x)
    && PropertiesAcceptable(x)
    && forall k :: 0 <= k < |x.ObjectDefinitions()| ==> ObjectValid(x.ObjectDefinitions()[k])
  }

  /** Whether a property draws the inherited-validation warning. */
  predicate NeedsWarning(p: CppSchema) {
    p.isPropertyInherited && p.DoesRequireValidation()
  }

  /** The warning for an inherited property that requires validation (a null
   *  name is interpolated as nothing). */
  function WarningFor(p: CppSchema): string {
    InheritedValidationWarning + (if p.propertyName.Some? then p.propertyName.value else "") + "\"."
  }

  /** The fixed opening of that warning. */
  const InheritedValidationWarning := "Make sure that custom validation is called from the base class for inherited property \""

  /** The warnings of InvalidateProperties, in property order. */
  function PropertyWarnings(properties: seq<CppSchema>): seq<string> {
    if properties == [] then []
    else
      var last := properties[|properties| - 1];
      PropertyWarnings(properties[..|properties| - 1]) + (if NeedsWarning(last) then [WarningFor(last)] else [])
  }

  /** The warnings of an object schema: its own properties' first, then those of
   *  each nested definition in order. */
  function ObjectWarnings(x: CppSchema): seq<string>
    decreases x, 1, 0
  {
    PropertyWarnings(x.Properties()) + DefinitionWarnings(x, 0)
  }

  function DefinitionWarnings(x: CppSchema, k: nat): seq<string>
    decreases x, 0, |x.ObjectDefinitions()| - k
  {
    if k >= |x.ObjectDefinitions()| then []
    else ObjectWarnings(x.ObjectDefinitions()[k]) + DefinitionWarnings(x, k + 1)
  }

  /** Every warning is about an inherited property that requires validation,
   *  and every such property has its warning. */
  lemma PropertyWarningsSpec(properties: seq<CppSchema>)
    ensures forall w :: w in PropertyWarnings(properties) <==>
      exists k :: 0 <= k < |properties| && NeedsWarning(properties[k]) && w == WarningFor(properties[k])
  {
    forall w ensures w in PropertyWarnings(properties) <==>
      exists k :: 0 <= k < |properties| && NeedsWarning(properties[k]) && w == WarningFor(properties[k])
    {
      if w in PropertyWarnings(properties) {
        WarningHasProperty(properties, w);
      }
      if exists k :: 0 <= k < |properties| && NeedsWarning(properties[k]) && w == WarningFor(properties[k]) {
        var k :| 0 <= k < |properties| && NeedsWarning(properties[k]) && w == WarningFor(properties[k]);
        PropertyHasWarning(properties, k);
      }
    }
  }

  /** Each warning comes from a property that needs one. */
  lemma {:induction false} WarningHasProperty(properties: seq<CppSchema>, w: string)
    requires w in PropertyWarnings(properties)
    ensures exists k :: 0 <= k < |properties| && NeedsWarning(properties[k]) && w == WarningFor(properties[k])
  {
    var init := properties[..|properties| - 1];
    var last := properties[|properties| - 1];
    if w in PropertyWarnings(init) {
      WarningHasProperty(init, w);
      var k :| 0 <= k < |init| && NeedsWarning(init[k]) && w == WarningFor(init[k]);
      assert properties[k] == init[k];
    } else {
      assert NeedsWarning(last) && w == WarningFor(last);
    }
  }

  /** Each property that needs a warning has it. */
  lemma {:induction false} PropertyHasWarning(properties: seq<CppSchema>, k: nat)
    requires k < |properties| && NeedsWarning(properties[k])
    ensures WarningFor(properties[k]) in PropertyWarnings(properties)
  {
    var init := properties[..|properties| - 1];
    if k < |init| {
      PropertyHasWarning(init, k);
      assert init[k] == properties[k];
    }
  }

  lemma PropertyWarningsStep(properties: seq<CppSchema>, k: nat)
    requires k < |properties|
    ensures PropertyWarnings(properties[..k + 1])
      == PropertyWarnings(properties[..k]) + (if NeedsWarning(properties[k]) then [WarningFor(properties[k])] else [])
  {
    assert properties[..k + 1][..k] == properties[..k];
  }

  /** InvalidateTemplates. */
  method InvalidateTemplates(x: CppSchema) returns (r: Result<()>)
    ensures r.Ok? <==> TemplatesNamed(x)
    ensures r.Err? ==> r.failure == SchemaError
  {
    var templates := x.Templates();
    var k := 0;
    while k < |templates|
      invariant 0 <= k <= |templates|
      invariant forall j :: 0 <= j < k ==> templates[j].key.Some? && templates[j].name.Some?
    {
      if templates[k].key.None? || templates[k].name.None? {
        return Err(SchemaError);
      }
      k := k + 1;
    }
    r := Ok(());
  }

  /** InvalidateIncludes. */
  method InvalidateIncludes(x: CppSchema) returns (r: Result<()>)
    ensures r.Ok? <==> IncludesHaveHeaders(x)
    ensures r.Err? ==> r.failure == SchemaError
  {
    var k := 0;
    while k < |x.includes|
      invariant 0 <= k <= |x.includes|
      invariant forall j :: 0 <= j < k ==> x.includes[j].header.Some?
    {
      if x.includes[k].header.None? {
        return Err(SchemaError);
      }
      k := k + 1;
    }
    r := Ok(());
  }

  /** InvalidateInherits. */
  method InvalidateInherits(x: CppSchema) returns (r: Result<()>)
    ensures r.Ok? <==> InheritsNamed(x)
    ensures r.Err? ==> r.failure == SchemaError
  {
    var inherits := x.Inherits();
    var k := 0;
    while k < |inherits|
      invariant 0 <= k <= |inherits|
      invariant forall j :: 0 <= j < k ==> inherits[j].Some?
    {
      if inherits[k].None? {
        return Err(SchemaError);
      }
      k := k + 1;
    }
    r := Ok(());
  }

  /** InvalidateProperties: at least one property; an inherited property must
   *  keep the trivial default and draws a warning when it requires validation. */
  method InvalidateProperties(x: CppSchema) returns (r: Result<seq<string>>)
    ensures r.Ok? <==> PropertiesAcceptable(x)
    ensures r.Ok? ==> r.value == PropertyWarnings(x.Properties())
    ensures r.Err? ==> r.failure == SchemaError
  {
    var properties := x.Properties();
    if |properties| == 0 {
      return Err(SchemaError);
    }
    var warnings: seq<string> := [];
    var k := 0;
    while k < |properties|
      invariant 0 <= k <= |properties|
      invariant forall j :: 0 <= j < k ==> properties[j].isPropertyInherited ==> properties[j].isDefaultValueTrivial
      invariant warnings == PropertyWarnings(properties[..k])
    {
      var p := properties[k];
      PropertyWarningsStep(properties, k);
      if p.isPropertyInherited {
        if !p.isDefaultValueTrivial {
          return Err(SchemaError);
        }
        if p.DoesRequireValidation() {
          warnings := warnings + [WarningFor(p)];
        }
      }
      k := k + 1;
    }
    assert properties[..k] == properties;
    r := Ok(warnings);
  }

  /** CppObjectSchema.Invalidate: every check above in turn, then each nested
   *  definition, whose warnings follow the object's own. */
  method Invalidate(x: CppSchema) returns (r: Result<seq<string>>)
    ensures r.Ok? <==> ObjectValid(x)
    ensures r.Ok? ==> r.value == ObjectWarnings(x)
    ensures r.Err? ==> r.failure == SchemaError
    decreases x, 1
  {
    if x.namespace.None? {
      return Err(SchemaError);
    }
    var checked := InvalidateTemplates(x);
    if checked.Err? {
      return Err(checked.failure);
    }
    checked := InvalidateIncludes(x);
    if checked.Err? {
      return Err(checked.failure);
    }
    checked := InvalidateInherits(x);
    if checked.Err? {
      return Err(checked.failure);
    }
    var warnings := InvalidateProperties(x);
    if warnings.Err? {
      return Err(warnings.failure);
    }
    var more := InvalidateDefinitions(x);
    if more.Err? {
      return Err(more.failure);
    }
    r := Ok(warnings.value + more.value);
  }

  /** InvalidateDefinitions: each nested definition in order, collecting its warnings. */
  method InvalidateDefinitions(x: CppSchema) returns (r: Result<seq<string>>)
    ensures r.Ok? <==> forall k :: 0 <= k < |x.ObjectDefinitions()| ==> ObjectValid(x.ObjectDefinitions()[k])
    ensures r.Ok? ==> r.value == DefinitionWarnings(x, 0)
    ensures r.Err? ==> r.failure == SchemaError
    decreases x, 0
  {
    var definitions := x.ObjectDefinitions();
    var warnings: seq<string> := [];
    var k := 0;
    while k < |definitions|
      invariant 0 <= k <= |definitions|
      invariant ValidUpTo(definitions, k)
      invariant warnings + DefinitionWarnings(x, k) == DefinitionWarnings(x, 0)
    {
      var more := Invalidate(definitions[k]);
      if more.Err? {
        return Err(more.failure);
      }
      ValidUpToStep(definitions, k);
      DefinitionWarningsStep(x, k, warnings);
      warnings := warnings + more.value;
      k := k + 1;
    }
    r := Ok(warnings);
  }

  /** The definitions before index k are all valid. */
  predicate ValidUpTo(definitions: seq<CppSchema>, k: nat) {
    k <= |definitions| && forall j :: 0 <= j < k ==> ObjectValid(definitions[j])
  }

  lemma ValidUpToStep(definitions: seq<CppSchema>, k: nat)
    requires ValidUpTo(definitions, k) && k < |definitions| && ObjectValid(definitions[k])
    ensures ValidUpTo(definitions, k + 1)
  {
  }

  /** Collecting one more definition's warnings keeps the loop's total. */
  lemma DefinitionWarningsStep(x: CppSchema, k: nat, warnings: seq<string>)
    requires k < |x.ObjectDefinitions()|
    ensures (warnings + ObjectWarnings(x.ObjectDefinitions()[k])) + DefinitionWarnings(x, k + 1)
      == warnings + DefinitionWarnings(x, k)
  {
    var w, rest := ObjectWarnings(x.ObjectDefinitions()[k]), DefinitionWarnings(x, k + 1);
    assert DefinitionWarnings(x, k) == w + rest;
    assert (warnings + w) + rest == warnings + (w + rest);
  }
}
