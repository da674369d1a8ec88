/** CppArraySchema: the array-specific parts of schema conversion (the item
 *  kind check, the literal of a default value, and the size and element-wise
 *  validation clauses). The recursive conversion of the item schema itself
 *  lives in CppSchemaBase, which hands its result to MoreValidationFormat. */
module CppArraySchema {
  import opened Errors
  import opened JsonModel
  import opened Extenders
  import opened CodeBuilder
  import opened ICppSchema

  /** An empty vector is the trivial value. */
  const TrivialDefaultConditionFormat: string := "{0}.empty()"

  /** ValidateJsonSchema: an array schema needs an item schema with a declared
   *  kind; that kind becomes the kind of the array's items. */
  function ValidateJsonSchema(schema: JsonSchema): (r: Result<SchemaKind>)
    ensures r.Ok? <==> schema.itemSchema.Some? && schema.itemSchema.value.schemaKind.Some?
    ensures r.Ok? ==> r.value == schema.itemSchema.value.schemaKind.value
    ensures r.Err? ==> r.failure == SchemaError
  {
    if schema.itemSchema.None? then Err(SchemaError)
    else if schema.itemSchema.value.schemaKind.None? then Err(SchemaError)
    else Ok(schema.itemSchema.value.schemaKind.value)
  }

  /** The kinds of item for which a literal parser exists. */
  predicate IsPrimitiveItemKind(kind: SchemaKind) {
    kind != ArrayKind && kind != ObjectKind
  }

  /** The C++ literal of one item of an array default value: `nullptr`, the
   *  lower-case Boolean, the Int64 re-printed, the Double re-printed, or the raw
   *  string. A value the kind's parser rejects (an Int64 overflow, a fraction
   *  given for an integer) is a FormatException. */
  function ParseItem(itemsKind: SchemaKind, x: JsonValue): Result<string> {
    match itemsKind
    case NullKind => Ok("nullptr")
    case BooleanKind =>
      if x.JsonTrue? then Ok("true") else if x.JsonFalse? then Ok("false") else Err(FormatError)
    case IntegerKind =>
      if x.JsonNumber? && x.int64.Some? then Ok(IntText(x.int64.value)) else Err(FormatError)
    case NumberKind => if x.JsonNumber? then Ok(x.doubleText) else Err(FormatError)
    case StringKind => if x.JsonString? then Ok(x.raw) else Err(FormatError)
    case ArrayKind => Err(NotSupported)
    case ObjectKind => Err(NotSupported)
  }

  /** The literals of the items, in order; the first item the parser rejects
   *  decides the failure. */
  function ParseItems(itemsKind: SchemaKind, items: seq<JsonValue>): (r: Result<seq<string>>)
    ensures r.Ok? <==> forall k :: 0 <= k < |items| ==> ParseItem(itemsKind, items[k]).Ok?
    ensures r.Ok? ==> |r.value| == |items|
    ensures r.Ok? ==> forall k :: 0 <= k < |items| ==> r.value[k] == ParseItem(itemsKind, items[k]).value
    ensures r.Err? ==> exists k :: 0 <= k < |items| && ParseItem(itemsKind, items[k]) == Err(r.failure)
  {
    if items == [] then Ok([])
    else
      var head := ParseItem(itemsKind, items[0]);
      if head.Err? then Err(head.failure)
      else
        var tail := ParseItems(itemsKind, items[1..]);
        if tail.Err? then
          assert forall k :: 1 <= k < |items| ==> items[k] == items[1..][k - 1];
          Err(tail.failure)
        else Ok([head.value] + tail.value)
  }

  /** Whether every item of an array fits the declared item kind. */
  predicate AllAgree(items: seq<JsonValue>, itemsKind: SchemaKind) {
    forall k :: 0 <= k < |items| ==> DoesAgree(items[k].Kind(), Some(itemsKind))
  }

  /** ParseOverride: the C++ literal of an array value. No value gives `{}`;
   *  an array gives its item literals, in order, between braces and separated
   *  by ", "; an item of the wrong kind or a value that is not an array is a
   *  FormatException, and items that are arrays or objects are not supported. */
  function ParseOverride(itemsKind: SchemaKind, value: JsonValue): (r: Result<string>)
    ensures value.Undefined? ==> r == Ok("{}")
    ensures !value.Undefined? && !value.JsonArray? ==> r == Err(FormatError)
    ensures value.JsonArray? && !AllAgree(value.items, itemsKind) ==> r == Err(FormatError)
    ensures value.JsonArray? && AllAgree(value.items, itemsKind) && !IsPrimitiveItemKind(itemsKind) ==>
      r == Err(NotSupported)
    ensures value.JsonArray? && AllAgree(value.items, itemsKind) && IsPrimitiveItemKind(itemsKind) ==>
      (r.Ok? <==> ParseItems(itemsKind, value.items).Ok?)
    ensures r.Ok? && value.JsonArray? ==>
      r.value == "{" + Join(", ", ParseItems(itemsKind, value.items).value) + "}"
  {
    match value
    case Undefined => Ok("{}")
    case JsonArray(items) =>
      if !AllAgree(items, itemsKind) then Err(FormatError)
      else if !IsPrimitiveItemKind(itemsKind) then Err(NotSupported)
      else
        var texts := ParseItems(itemsKind, items);
        if texts.Err? then Err(texts.failure) else Ok("{" + Join(", ", texts.value) + "}")
    case _ => Err(FormatError)
  }

  /** An integer array default such as [1, -2] becomes the literal {1, -2}. */
  lemma IntegerArrayLiteral()
    ensures ParseOverride(IntegerKind,
      JsonArray([JsonNumber("1", Some(1), "1"), JsonNumber("-2", Some(-2), "-2")])) == Ok("{1, -2}")
  {
    var items := [JsonNumber("1", Some(1), "1"), JsonNumber("-2", Some(-2), "-2")];
    assert AllAgree(items, IntegerKind);
    assert NatText(1) == "1" && NatText(2) == "2";
    assert IntText(1) == "1" && IntText(-2) == "-2";
    assert ParseItem(IntegerKind, items[0]) == Ok("1");
    assert ParseItem(IntegerKind, items[1]) == Ok("-2");
    var texts := ParseItems(IntegerKind, items);
    assert texts.value == ["1", "-2"];
    assert Join(", ", ["1", "-2"]) == "1, -2" by {
      assert ["1", "-2"][..1] == ["1"];
      assert Join(", ", ["1"]) == "1";
    }
    assert ParseOverride(IntegerKind, JsonArray(items)) == Ok("{" + Join(", ", texts.value) + "}");
    assert "{" + "1, -2" + "}" == "{1, -2}";
  }

  /** The size clauses: at most one for minItems, then at most one for maxItems. */
  function SizeClauses(schema: JsonSchema, message: string): (r: seq<CodeLine>)
    ensures |r| == (if schema.minItems.Some? then 1 else 0) + (if schema.maxItems.Some? then 1 else 0)
    ensures schema.minItems.Some? ==> r[0] == BoundClause("<", schema.minItems.value, message)
    ensures schema.maxItems.Some? ==> r[|r| - 1] == BoundClause(">", schema.maxItems.value, message)
  {
    (if schema.minItems.Some? then [BoundClause("<", schema.minItems.value, message)] else [])
    + (if schema.maxItems.Some? then [BoundClause(">", schema.maxItems.value, message)] else [])
  }

  /** One clause of the item schema placed inside the element-wise loop, as
   *  written: the loop variable `x` is substituted for `{0}` and the line goes
   *  one tab deeper. The braces that the substitution un-escapes stay single. */
  function ItemClauseAsWritten(line: CodeLine): Result<CodeLine> {
    var code := FormatOne(line.code, "x");
    if code.Err? then Err(code.failure) else Ok(CodeLine(code.value, line.tabOffset + 1))
  }

  /** One clause of the item schema placed inside the element-wise loop: `x`
   *  is substituted for `{0}`, the braces of the result are escaped again with
   *  ToFormat, and the line goes one tab deeper. */
  function ItemClause(line: CodeLine): Result<CodeLine> {
    var code := FormatOne(line.code, "x");
    if code.Err? then Err(code.failure) else Ok(CodeLine(ToFormat(Some(code.value)).value, line.tabOffset + 1))
  }

  /** A clause of an array of arrays that both validate, as written: the inner
   *  loop's opening line `{{` becomes a lone `{`, which the struct generator's
   *  own String.Format then rejects. */
  lemma ItemClauseAsWrittenBreaksNesting(field: string)
    ensures ItemClauseAsWritten(CodeLine("{{", 0)) == Ok(CodeLine("{", 1))
    ensures FormatOne("{", field) == Err(FormatError)
  {
    var f := "{{";
    assert f[2..] == [];
    assert StringFormat(f[2..], ["x"]) == Ok([]);
    assert "{"[1..] == [];
    assert DigitRun("{"[1..]) == 0;
    assert StringFormat("{", [field]) == Err(FormatError);
    assert StringFormat(f, ["x"]) == PrefixWith("{", StringFormat(f[2..], ["x"]));
    assert "{" + [] == "{";
  }

  /** The clause placed inside the loop is again a one-parameter format: giving
   *  it any argument yields exactly the item's clause for the element `x`. */
  lemma ItemClauseSpec(line: CodeLine, field: string)
    ensures ItemClause(line).Ok? <==> FormatOne(line.code, "x").Ok?
    ensures ItemClause(line).Ok? ==>
      ItemClause(line).value.tabOffset == line.tabOffset + 1
      && FormatOne(ItemClause(line).value.code, field) == FormatOne(line.code, "x")
  {
    var code := FormatOne(line.code, "x");
    if code.Ok? {
      ToFormatRoundTrip(code.value, [field]);
    }
  }

  /** MoreValidationFormat: the minItems and maxItems clauses, then, when the
   *  item schema is converted (not ignored) and requires validation, a loop over
   *  the elements holding each of the item's clauses one tab deeper. */
  method MoreValidationFormat(schema: JsonSchema, message: string, itemsSchema: Option<CppSchema>)
    returns (r: Result<seq<CodeLine>>)
    ensures var loop := itemsSchema.Some? && itemsSchema.value.DoesRequireValidation();
      r.Ok? <==> (loop ==> forall k :: 0 <= k < |itemsSchema.value.validationFormats| ==>
        ItemClause(itemsSchema.value.validationFormats[k]).Ok?)
    ensures r.Err? ==> r.failure == FormatError
    ensures r.Ok? ==> var n := |SizeClauses(schema, message)|;
      n <= |r.value| && r.value[..n] == SizeClauses(schema, message)
    ensures r.Ok? && !(itemsSchema.Some? && itemsSchema.value.DoesRequireValidation()) ==>
      r.value == SizeClauses(schema, message)
    ensures r.Ok? && itemsSchema.Some? && itemsSchema.value.DoesRequireValidation() ==>
      var n := |SizeClauses(schema, message)|;
      var formats := itemsSchema.value.validationFormats;
      |r.value| == n + |formats| + 3
      && r.value[n] == CodeLine("for (const auto& x : {0})", 0)
      && r.value[n + 1] == CodeLine("{{", 0)
      && (forall k :: 0 <= k < |formats| ==> r.value[n + 2 + k] == ItemClause(formats[k]).value)
      && r.value[|r.value| - 1] == CodeLine("}} // for (...)", 0)
  {
    var result := SizeClauses(schema, message);
    if itemsSchema.Some? && itemsSchema.value.DoesRequireValidation() {
      r := AppendItemLoop(result, itemsSchema.value.validationFormats);
    } else {
      r := Ok(result);
    }
  }

  /** The size clauses followed by the loop over the elements. */
  method AppendItemLoop(size: seq<CodeLine>, formats: seq<CodeLine>) returns (r: Result<seq<CodeLine>>)
    ensures r.Ok? <==> forall k :: 0 <= k < |formats| ==> ItemClause(formats[k]).Ok?
    ensures r.Err? ==> r.failure == FormatError
    ensures r.Ok? ==> var n := |size|;
      |r.value| == n + |formats| + 3 && r.value[..n] == size
      && r.value[n] == CodeLine("for (const auto& x : {0})", 0)
      && r.value[n + 1] == CodeLine("{{", 0)
      && (forall k :: 0 <= k < |formats| ==> r.value[n + 2 + k] == ItemClause(formats[k]).value)
      && r.value[|r.value| - 1] == CodeLine("}} // for (...)", 0)
  {
    var clauses := ItemClauses(formats);
    if clauses.Err? {
      return Err(clauses.failure);
    }
    var head := [CodeLine("for (const auto& x : {0})", 0), CodeLine("{{", 0)];
    var tail := [CodeLine("}} // for (...)", 0)];
    Layout(size, head, clauses.value, tail);
    r := Ok(size + head + clauses.value + tail);
  }

  /** Where each part of a + b + c + d sits. */
  lemma Layout<T>(a: seq<T>, b: seq<T>, c: seq<T>, d: seq<T>)
    requires |b| == 2 && |d| == 1
    ensures var r := a + b + c + d;
      |r| == |a| + |c| + 3 && r[..|a|] == a && r[|a|] == b[0] && r[|a| + 1] == b[1]
      && (forall k :: 0 <= k < |c| ==> r[|a| + 2 + k] == c[k]) && r[|r| - 1] == d[0]
  {
    var r := a + b + c + d;
    assert r[..|a|] == a;
  }

  /** The loop inside MoreValidationFormat: each of the item's clauses in
   *  turn, or the failure of the first that cannot be formatted. */
  method ItemClauses(formats: seq<CodeLine>) returns (r: Result<seq<CodeLine>>)
    ensures r.Ok? <==> forall k :: 0 <= k < |formats| ==> ItemClause(formats[k]).Ok?
    ensures r.Err? ==> r.failure == FormatError
    ensures r.Ok? ==> |r.value| == |formats| && forall k :: 0 <= k < |formats| ==> r.value[k] == ItemClause(formats[k]).value
  {
    var result: seq<CodeLine> := [];
    var k := 0;
    while k < |formats|
      invariant 0 <= k <= |formats| && |result| == k
      invariant forall j :: 0 <= j < k ==> ItemClause(formats[j]).Ok? && result[j] == ItemClause(formats[j]).value
    {
      var clause := ItemClause(formats[k]);
      if clause.Err? {
        StringFormatFailure(formats[k].code, ["x"]);
        return Err(clause.failure);
      }
      result := result + [clause.value];
      k := k + 1;
    }
    r := Ok(result);
  }
}
