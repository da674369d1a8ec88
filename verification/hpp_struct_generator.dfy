/** HppStructGenerator: the header of an object schema, a C++ struct with one
 *  typedef, JSON key and field per property, optional soft validation
 *  (`error_message`) and hard validation (`validate`), a default and an
 *  explicit constructor, getters and setters, equality, the nlohmann
 *  conversions, the noexcept JSON serializer and the std::hash
 *  specialization. */
module HppStructGenerator {
  import opened Errors
  import opened JsonModel
  import opened Extenders
  import opened CodeBuilder
  import opened ICppSchema

  /** No property may be named like the struct's own typedef. */
  const ReservedNames: seq<string> := ["type"]

  const StandardIncludes: seq<HppInclude> := [
    HppInclude(Some("<nlohmann/json.hpp>"), None),
    HppInclude(Some("<ropufu/noexcept_json.hpp>"), None),
    HppInclude(Some("<cstddef>"), Some("std::size_t")),
    HppInclude(Some("<functional>"), Some("std::hash")),
    HppInclude(Some("<stdexcept>"), Some("std::runtime_error")),
    HppInclude(Some("<string_view>"), Some("std::string_view")),
    HppInclude(Some("<string>"), Some("std::string"))]

  const ValidationIncludes: seq<HppInclude> := [
    HppInclude(Some("<concepts>"), Some("std::same_as")),
    HppInclude(Some("<optional>"), Some("std::optional, std::nullopt"))]

  /** MoreIncludes: the standard includes, then the validation includes when
   *  the struct validates itself. */
  function MoreIncludes(x: CppSchema): seq<HppInclude> {
    StandardIncludes + (if x.DoesRequireValidation() then ValidationIncludes else [])
  }

  /** The standard includes always come first, and the validation includes
   *  are there exactly when the struct validates itself. */
  lemma MoreIncludesSpec(x: CppSchema)
    ensures MoreIncludes(x)[..|StandardIncludes|] == StandardIncludes
    ensures ValidationIncludes[0] in MoreIncludes(x) <==> x.DoesRequireValidation()
    ensures ValidationIncludes[1] in MoreIncludes(x) <==> x.DoesRequireValidation()
  {
    assert ValidationIncludes[0] !in StandardIncludes;
    assert ValidationIncludes[1] !in StandardIncludes;
    if x.DoesRequireValidation() {
      assert MoreIncludes(x)[|StandardIncludes|] == ValidationIncludes[0];
      assert MoreIncludes(x)[|StandardIncludes| + 1] == ValidationIncludes[1];
    } else {
      assert MoreIncludes(x) == StandardIncludes;
    }
  }

  // ---------------------------------------------------------------------------
  // The loops of the generator, as folds
  // ---------------------------------------------------------------------------

  /** The lines a loop appends, `f(x, i)` for the i-th element in turn. */
  function Gather<T, U>(xs: seq<T>, f: (T, nat) -> seq<U>): seq<U> {
    if xs == [] then [] else Gather(xs[..|xs| - 1], f) + f(xs[|xs| - 1], |xs| - 1)
  }

  lemma GatherStep<T, U>(xs: seq<T>, f: (T, nat) -> seq<U>, k: nat)
    requires k < |xs|
    ensures Gather(xs[..k + 1], f) == Gather(xs[..k], f) + f(xs[k], k)
  {
    assert xs[..k + 1][..k] == xs[..k];
  }

  lemma GatherSnoc<T, U>(xs: seq<T>, x: T, f: (T, nat) -> seq<U>)
    ensures Gather(xs + [x], f) == Gather(xs, f) + f(x, |xs|)
  {
    assert (xs + [x])[..|xs|] == xs;
  }

  /** A loop that appends one item per element appends them in order. */
  lemma {:induction false} GatherSingles<T, U>(xs: seq<T>, f: (T, nat) -> seq<U>)
    requires forall x, i :: |f(x, i)| == 1
    ensures |Gather(xs, f)| == |xs|
    ensures forall i :: 0 <= i < |xs| ==> [Gather(xs, f)[i]] == f(xs[i], i)
  {
    if xs != [] {
      var init := xs[..|xs| - 1];
      GatherSingles(init, f);
      var g := Gather(xs, f);
      assert g == Gather(init, f) + f(xs[|xs| - 1], |xs| - 1);
      forall i | 0 <= i < |xs|
        ensures [g[i]] == f(xs[i], i)
      {
        if i < |init| {
          assert g[i] == Gather(init, f)[i];
          assert init[i] == xs[i];
        } else {
          assert g[i] == f(xs[|xs| - 1], |xs| - 1)[0];
        }
      }
    }
  }

  /** Appending two runs one after the other appends their concatenation. */
  lemma Regroup<U>(a: seq<U>, b: seq<U>, c: seq<U>)
    ensures a + b + c == a + (b + c)
  {
  }

  /** One more step of a loop whose body may throw: the first failure stops it. */
  function Then<U>(acc: Result<seq<U>>, y: Result<seq<U>>): (r: Result<seq<U>>)
    ensures r.Ok? <==> acc.Ok? && y.Ok?
  {
    if acc.Err? then acc else if y.Err? then Err(y.failure) else Ok(acc.value + y.value)
  }

  /** The lines a loop whose body may throw appends, `f(x, i, c)` for the
   *  i-th element in turn, or its first failure; `c` is what the body reads
   *  besides the element. */
  function Collect<C, T, U>(xs: seq<T>, c: C, f: (T, nat, C) -> Result<seq<U>>): Result<seq<U>> {
    if xs == [] then Ok([]) else Then(Collect(xs[..|xs| - 1], c, f), f(xs[|xs| - 1], |xs| - 1, c))
  }

  lemma CollectStep<C, T, U>(xs: seq<T>, c: C, f: (T, nat, C) -> Result<seq<U>>, k: nat)
    requires k < |xs|
    ensures Collect(xs[..k + 1], c, f) == Then(Collect(xs[..k], c, f), f(xs[k], k, c))
  {
    assert xs[..k + 1][..k] == xs[..k];
  }

  /** A step that succeeds with y: the loop so far, after `before`, grows by y. */
  lemma StepAppends<C, T, U>(before: seq<U>, xs: seq<T>, c: C, f: (T, nat, C) -> Result<seq<U>>, k: nat, y: seq<U>)
    requires k < |xs| && Collect(xs[..k], c, f).Ok? && f(xs[k], k, c) == Ok(y)
    ensures Collect(xs[..k + 1], c, f).Ok?
    ensures before + Collect(xs[..k], c, f).value + y == before + Collect(xs[..k + 1], c, f).value
  {
    CollectStep(xs, c, f, k);
  }

  /** A step that fails: the whole loop fails with its failure. */
  lemma StepStops<C, T, U>(xs: seq<T>, c: C, f: (T, nat, C) -> Result<seq<U>>, k: nat)
    requires k < |xs| && Collect(xs[..k], c, f).Ok? && f(xs[k], k, c).Err?
    ensures Collect(xs, c, f) == Err(f(xs[k], k, c).failure)
  {
    CollectStep(xs, c, f, k);
    CollectStops(xs, c, f, k + 1);
  }

  /** Once a step has failed, the whole loop fails with that failure. */
  lemma {:induction false} CollectStops<C, T, U>(xs: seq<T>, c: C, f: (T, nat, C) -> Result<seq<U>>, k: nat)
    requires k <= |xs| && Collect(xs[..k], c, f).Err?
    ensures Collect(xs, c, f) == Collect(xs[..k], c, f)
    decreases |xs| - k
  {
    if k == |xs| {
      assert xs[..k] == xs;
    } else {
      CollectStep(xs, c, f, k);
      CollectStops(xs, c, f, k + 1);
    }
  }

  /** A failure of the loop is the failure of one of its steps. */
  lemma {:induction false} CollectFailure<C, T, U>(xs: seq<T>, c: C, f: (T, nat, C) -> Result<seq<U>>)
    requires Collect(xs, c, f).Err?
    ensures exists i :: 0 <= i < |xs| && f(xs[i], i, c) == Err(Collect(xs, c, f).failure)
  {
    var init := xs[..|xs| - 1];
    if Collect(init, c, f).Err? {
      CollectFailure(init, c, f);
      var i :| 0 <= i < |init| && f(init[i], i, c) == Err(Collect(init, c, f).failure);
      assert init[i] == xs[i];
    } else {
      assert f(xs[|xs| - 1], |xs| - 1, c) == Err(Collect(xs, c, f).failure);
    }
  }

  // ---------------------------------------------------------------------------
  // Names
  // ---------------------------------------------------------------------------

  /** What the constructor caches: the template signature (none without
   *  templates), the struct's name with its template arguments and that name
   *  qualified by the namespace. */
  datatype StructNames = StructNames(
    templateSignature: Option<string>, templatedStructName: string, qualifiedStructName: string)

  /** A null key or name is interpolated as nothing. */
  function TemplateNames(ts: seq<HppTemplate>): seq<string> {
    seq(|ts|, i requires 0 <= i < |ts| => Interpolated(ts[i].name))
  }

  function TemplateDefinitions(ts: seq<HppTemplate>): seq<string> {
    seq(|ts|, i requires 0 <= i < |ts| => Interpolated(ts[i].key) + " " + Interpolated(ts[i].name))
  }

  function NamesOf(x: CppSchema): StructNames {
    var ts := x.Templates();
    var signature := if |ts| == 0 then None else Some("template <" + Join(", ", TemplateDefinitions(ts)) + ">");
    var templated := if signature.None? then x.typename
      else x.typename + "<" + Join(", ", TemplateNames(ts)) + ">";
    StructNames(signature, templated, Interpolated(x.namespace) + "::" + templated)
  }

  /** The constructor's loop over the templates. */
  method MakeNames(x: CppSchema) returns (r: StructNames)
    ensures r == NamesOf(x)
  {
    var ts := x.Templates();
    var templateNames: seq<string> := [];
    var templateDefinitions: seq<string> := [];
    var k := 0;
    while k < |ts|
      invariant 0 <= k <= |ts| && |templateNames| == |templateDefinitions| == k
      invariant forall i :: 0 <= i < k ==> templateNames[i] == Interpolated(ts[i].name)
      invariant forall i :: 0 <= i < k ==>
        templateDefinitions[i] == Interpolated(ts[i].key) + " " + Interpolated(ts[i].name)
    {
      templateNames := templateNames + [Interpolated(ts[k].name)];
      templateDefinitions := templateDefinitions + [Interpolated(ts[k].key) + " " + Interpolated(ts[k].name)];
      k := k + 1;
    }
    assert templateNames == TemplateNames(ts);
    assert templateDefinitions == TemplateDefinitions(ts);
    var signature: Option<string> := None;
    if |templateNames| != 0 {
      signature := Some("template <" + Join(", ", templateDefinitions) + ">");
    }
    var templated := x.typename;
    if signature.Some? {
      templated := x.typename + "<" + Join(", ", templateNames) + ">";
    }
    r := StructNames(signature, templated, Interpolated(x.namespace) + "::" + templated);
  }

  /** A struct without templates is named by its typename alone; one template
   *  parameter gives a one-parameter signature and a one-argument name. */
  lemma NamesSpec(x: CppSchema)
    ensures NamesOf(x).templateSignature.None? <==> |x.Templates()| == 0
    ensures |x.Templates()| == 0 ==> NamesOf(x).templatedStructName == x.typename
    ensures |x.Templates()| == 1 ==>
      var t := x.Templates()[0];
      NamesOf(x).templateSignature == Some("template <" + (Interpolated(t.key) + " " + Interpolated(t.name)) + ">")
      && NamesOf(x).templatedStructName == x.typename + "<" + Interpolated(t.name) + ">"
    ensures NamesOf(x).qualifiedStructName == Interpolated(x.namespace) + "::" + NamesOf(x).templatedStructName
  {
    var ts := x.Templates();
    if |ts| == 1 {
      var definitions := TemplateDefinitions(ts);
      var names := TemplateNames(ts);
      assert |definitions| == 1 && definitions[0] == Interpolated(ts[0].key) + " " + Interpolated(ts[0].name);
      assert Join(", ", definitions) == definitions[0];
      assert |names| == 1 && names[0] == Interpolated(ts[0].name);
      assert Join(", ", names) == names[0];
    }
  }

  // ---------------------------------------------------------------------------
  // Common pieces
  // ---------------------------------------------------------------------------

  /** MethodName and FieldName as interpolated. */
  function Method(p: CppSchema): string { Interpolated(p.MethodName()) }

  function Field(p: CppSchema): string { Interpolated(p.FieldName()) }

  /** A base class entry; an absent one reads as all-null. */
  function BaseOf(o: Option<HppInherit>): HppInherit {
    if o.Some? then o.value else HppInherit(None, None, None, None)
  }

  /** The properties that are not inherited, in order. */
  function Own(ps: seq<CppSchema>): seq<CppSchema> {
    if ps == [] then []
    else Own(ps[..|ps| - 1]) + (if ps[|ps| - 1].isPropertyInherited then [] else [ps[|ps| - 1]])
  }

  lemma OwnStep(ps: seq<CppSchema>, k: nat)
    requires k < |ps|
    ensures Own(ps[..k + 1]) == Own(ps[..k]) + (if ps[k].isPropertyInherited then [] else [ps[k]])
  {
    assert ps[..k + 1][..k] == ps[..k];
  }

  /** One step of a loop that skips the inherited properties. */
  lemma OwnGatherStep<U>(ps: seq<CppSchema>, f: (CppSchema, nat) -> seq<U>, k: nat)
    requires k < |ps|
    ensures Gather(Own(ps[..k + 1]), f)
      == Gather(Own(ps[..k]), f) + (if ps[k].isPropertyInherited then [] else f(ps[k], |Own(ps[..k])|))
  {
    OwnStep(ps, k);
    if !ps[k].isPropertyInherited {
      GatherSnoc(Own(ps[..k]), ps[k], f);
    } else {
      assert Own(ps[..k + 1]) == Own(ps[..k]);
      assert Gather(Own(ps[..k]), f) + [] == Gather(Own(ps[..k]), f);
    }
  }

  /** Own keeps exactly the properties that are not inherited. */
  lemma {:induction false} OwnSpec(ps: seq<CppSchema>)
    ensures |Own(ps)| <= |ps|
    ensures forall p :: p in Own(ps) <==> p in ps && !p.isPropertyInherited
  {
    if ps != [] {
      var init := ps[..|ps| - 1];
      OwnSpec(init);
      assert ps == init + [ps[|ps| - 1]];
    }
  }

  /** A list after `ForEach(first, last)`: ": " before the first item, ","
   *  after every item but the last. */
  function ListLines(items: seq<string>, level: int): seq<CodeLine> {
    seq(|items|, i requires 0 <= i < |items| =>
      CodeLine((if i == 0 then ": " else "") + items[i] + (if i == |items| - 1 then "" else ","), level))
  }

  /** Only the first item is marked, and every item but the last ends in a
   *  comma. */
  lemma ListLinesSpec(items: seq<string>, level: int, i: nat)
    requires i < |items|
    ensures ListLines(items, level)[i].tabOffset == level
    ensures i == 0 ==> ListLines(items, level)[i].code[..2] == ": "
    ensures i + 1 < |items| ==> ListLines(items, level)[i].code[|ListLines(items, level)[i].code| - 1] == ','
    ensures 0 < i == |items| - 1 ==> ListLines(items, level)[i].code == items[i]
  {
  }

  predicate EndsWith(s: string, suffix: string) {
    |suffix| <= |s| && s[|s| - |suffix|..] == suffix
  }

  predicate StartsWith(s: string, prefix: string) {
    |prefix| <= |s| && s[..|prefix|] == prefix
  }

  // ---------------------------------------------------------------------------
  // MakeTypedefs
  // ---------------------------------------------------------------------------

  function BaseTypedefLines(inherits: seq<Option<HppInherit>>): seq<CodeLine> {
    seq(|inherits|, i requires 0 <= i < |inherits| =>
      CodeLine("using base_type_" + NatText(i) + " = " + Interpolated(BaseOf(inherits[i]).name) + ";", 0))
  }

  /** A template parameter with an alias is also known by that alias. */
  function AliasLine(t: HppTemplate, i: nat): seq<CodeLine> {
    if t.alias.Some? then [CodeLine("using " + t.alias.value + " = " + Interpolated(t.name) + ";", 0)] else []
  }

  function FieldTypedefLines(ps: seq<CppSchema>): seq<CodeLine> {
    seq(|ps|, i requires 0 <= i < |ps| => CodeLine("using " + Method(ps[i]) + "_type = " + ps[i].typename + ";", 0))
  }

  /** What MakeTypedefs builds: the struct's own type, its base classes, the
   *  template aliases and one typedef per property, inherited ones included. */
  function TypedefLines(x: CppSchema, n: StructNames): seq<CodeLine> {
    [CodeLine("using type = " + n.templatedStructName + ";", 0)]
    + BaseTypedefLines(x.Inherits()) + Gather(x.Templates(), AliasLine)
    + [CodeLine("", 0)] + [CodeLine("// ~~ Field typedefs ~~", 0)]
    + FieldTypedefLines(x.Properties())
  }

  method AppendAliases(b: CodeBuilder, ts: seq<HppTemplate>)
    modifies b
    ensures b.lines == old(b.lines) + Gather(ts, AliasLine) && b.tabLevel == old(b.tabLevel)
  {
    var k := 0;
    while k < |ts|
      invariant 0 <= k <= |ts| && b.tabLevel == old(b.tabLevel)
      invariant b.lines == old(b.lines) + Gather(ts[..k], AliasLine)
    {
      GatherStep(ts, AliasLine, k);
      if ts[k].alias.Some? {
        b.Append("using " + ts[k].alias.value + " = " + Interpolated(ts[k].name) + ";", 0 - b.tabLevel);
      }
      k := k + 1;
    }
    assert ts[..k] == ts;
  }

  method MakeTypedefs(x: CppSchema, n: StructNames) returns (b: CodeBuilder)
    ensures fresh(b) && b.tabLevel == 0 && b.lines == TypedefLines(x, n)
  {
    b := new CodeBuilder();
    b.Append("using type = " + n.templatedStructName + ";", 0);
    AppendRun(b, BaseTypedefLines(x.Inherits()));
    AppendAliases(b, x.Templates());
    b.AppendEmpty();
    b.Append("// ~~ Field typedefs ~~", 0);
    AppendRun(b, FieldTypedefLines(x.Properties()));
  }

  /** Every property has its typedef, in order, after the fixed lines and one
   *  line per base class and per alias. */
  lemma TypedefSpec(x: CppSchema, n: StructNames, i: nat)
    requires i < |x.Properties()|
    ensures var r := TypedefLines(x, n);
      var at := |r| - |x.Properties()|;
      at >= 3 + |x.Inherits()| && r[at + i].code == "using " + Method(x.Properties()[i]) + "_type = "
        + x.Properties()[i].typename + ";"
  {
  }

  // ---------------------------------------------------------------------------
  // MakeNoexceptValidation
  // ---------------------------------------------------------------------------

  /** The soft validation of a base class with an error message call. */
  function ErrorCallLine(k: nat, i: nat, call: string): CodeLine {
    var m := "message_" + NatText(i);
    match k
      case 0 => CodeLine("auto " + m + " = self.base_type_" + NatText(i) + "::" + call + ";", 1)
      case 1 => CodeLine("static_assert(std::same_as<std::optional<std::string>, decltype(" + m + ")>);", 1)
      case 2 => CodeLine("if (" + m + ".has_value()) return " + m + ";", 1)
      case _ => CodeLine("", 1)
  }

  function ErrorCallBlock(o: Option<HppInherit>, i: nat): seq<CodeLine> {
    var call := BaseOf(o).errorMessageCall;
    if call.None? then [] else seq(4, k requires 0 <= k < 4 => ErrorCallLine(k, i, call.value))
  }

  /** CodeLine.Format: the code with its placeholder replaced by `arg`,
   *  inside the function's block. */
  function FormatClause(y: CodeLine, i: nat, arg: string): Result<seq<CodeLine>> {
    var code := FormatOne(y.code, arg);
    if code.Err? then Err(code.failure) else Ok([CodeLine(code.value, 1 + y.tabOffset)])
  }

  /** The clauses of a property that is not inherited and requires validation,
   *  applied to its field of `self`. */
  function PropertyClauses(p: CppSchema, i: nat, self: string): Result<seq<CodeLine>> {
    if p.DoesRequireValidation() && !p.isPropertyInherited
    then Collect(p.validationFormats, self + Field(p), FormatClause) else Ok([])
  }

  function ValidationHeadLine(k: nat): CodeLine {
    match k
      case 0 => CodeLine("", 0)
      case 1 => CodeLine("/** @brief Validates the structure and returns an error message, if any. */", 0)
      case 2 => CodeLine("std::optional<std::string> error_message() const noexcept", 0)
      case 3 => CodeLine("{", 0)
      case 4 => CodeLine("const type& self = *this;", 1)
      case _ => CodeLine("", 1)
  }

  function ValidationHeadRun(): seq<CodeLine> {
    seq(6, k requires 0 <= k < 6 => ValidationHeadLine(k))
  }

  /** What MakeNoexceptValidation builds: nothing without validation;
   *  otherwise `error_message`, which asks each base class, then checks each
   *  own property's clauses, then reports no message. */
  function ValidationLines(x: CppSchema): Result<seq<CodeLine>> {
    if !x.DoesRequireValidation() then Ok([])
    else
      var clauses := Collect(x.Properties(), "self.", PropertyClauses);
      if clauses.Err? then Err(clauses.failure)
      else Ok(ValidationHeadRun() + Gather(x.Inherits(), ErrorCallBlock) + clauses.value
        + [CodeLine("return std::nullopt;", 1)] + [CodeLine("} // error_message(...)", 0)])
  }

  method AppendErrorCalls(b: CodeBuilder, inherits: seq<Option<HppInherit>>)
    modifies b
    ensures b.lines == old(b.lines) + Gather(inherits, ErrorCallBlock) && b.tabLevel == old(b.tabLevel)
  {
    var k := 0;
    while k < |inherits|
      invariant 0 <= k <= |inherits| && b.tabLevel == old(b.tabLevel)
      invariant b.lines == old(b.lines) + Gather(inherits[..k], ErrorCallBlock)
    {
      GatherStep(inherits, ErrorCallBlock, k);
      AppendRun(b, ErrorCallBlock(inherits[k], k));
      Regroup(old(b.lines), Gather(inherits[..k], ErrorCallBlock), ErrorCallBlock(inherits[k], k));
      k := k + 1;
    }
    assert inherits[..k] == inherits;
  }

  /** The inner loop: each clause of one property. */
  method AppendClauses(b: CodeBuilder, ys: seq<CodeLine>, arg: string) returns (r: Result<()>)
    modifies b
    ensures b.tabLevel == old(b.tabLevel)
    ensures r.Ok? <==> Collect(ys, arg, FormatClause).Ok?
    ensures r.Err? ==> Collect(ys, arg, FormatClause) == Err(r.failure)
    ensures r.Ok? ==> b.lines == old(b.lines) + Collect(ys, arg, FormatClause).value
  {
    var k := 0;
    while k < |ys|
      invariant 0 <= k <= |ys| && b.tabLevel == old(b.tabLevel)
      invariant Collect(ys[..k], arg, FormatClause).Ok?
      invariant b.lines == old(b.lines) + Collect(ys[..k], arg, FormatClause).value
    {
      var code := FormatOne(ys[k].code, arg);
      if code.Err? {
        StepStops(ys, arg, FormatClause, k);
        return Err(code.failure);
      }
      b.Append(code.value, 1 + ys[k].tabOffset - b.tabLevel);
      StepAppends(old(b.lines), ys, arg, FormatClause, k, [CodeLine(code.value, 1 + ys[k].tabOffset)]);
      k := k + 1;
    }
    assert ys[..k] == ys;
    r := Ok(());
  }

  /** The outer loop: the clauses of every own property that requires validation. */
  method AppendPropertyClauses(b: CodeBuilder, ps: seq<CppSchema>) returns (r: Result<()>)
    modifies b
    ensures b.tabLevel == old(b.tabLevel)
    ensures r.Ok? <==> Collect(ps, "self.", PropertyClauses).Ok?
    ensures r.Err? ==> Collect(ps, "self.", PropertyClauses) == Err(r.failure)
    ensures r.Ok? ==> b.lines == old(b.lines) + Collect(ps, "self.", PropertyClauses).value
  {
    var k := 0;
    while k < |ps|
      invariant 0 <= k <= |ps| && b.tabLevel == old(b.tabLevel)
      invariant Collect(ps[..k], "self.", PropertyClauses).Ok?
      invariant b.lines == old(b.lines) + Collect(ps[..k], "self.", PropertyClauses).value
    {
      var done := AppendPropertyClause(b, ps[k], k);
      if done.Err? {
        StepStops(ps, "self.", PropertyClauses, k);
        return Err(done.failure);
      }
      StepAppends(old(b.lines), ps, "self.", PropertyClauses, k, PropertyClauses(ps[k], k, "self.").value);
      k := k + 1;
    }
    assert ps[..k] == ps;
    r := Ok(());
  }

  /** The outer loop's body: the clauses of one property, when it is its own
   *  and requires validation. */
  method AppendPropertyClause(b: CodeBuilder, p: CppSchema, k: nat) returns (r: Result<()>)
    modifies b
    ensures b.tabLevel == old(b.tabLevel)
    ensures r.Ok? <==> PropertyClauses(p, k, "self.").Ok?
    ensures r.Err? ==> PropertyClauses(p, k, "self.") == Err(r.failure)
    ensures r.Ok? ==> b.lines == old(b.lines) + PropertyClauses(p, k, "self.").value
  {
    if p.DoesRequireValidation() && !p.isPropertyInherited {
      r := AppendClauses(b, p.validationFormats, "self." + Field(p));
    } else {
      r := Ok(());
    }
  }

  method MakeNoexceptValidation(x: CppSchema) returns (r: Result<CodeBuilder>)
    ensures r.Ok? <==> ValidationLines(x).Ok?
    ensures r.Err? ==> ValidationLines(x) == Err(r.failure)
    ensures r.Ok? ==> fresh(r.value) && r.value.tabLevel == 0 && r.value.lines == ValidationLines(x).value
  {
    var b := new CodeBuilder();
    if !x.DoesRequireValidation() {
      return Ok(b);
    }
    AppendRun(b, ValidationHeadRun());
    AppendErrorCalls(b, x.Inherits());
    var done := AppendPropertyClauses(b, x.Properties());
    if done.Err? {
      return Err(done.failure);
    }
    b.Append("return std::nullopt;", 1);
    b.Append("} // error_message(...)", 0);
    r := Ok(b);
  }

  /** `error_message` is there exactly when the struct validates itself; it
   *  fails to build only when some own validated property's clause is not a
   *  valid format. */
  lemma ValidationSpec(x: CppSchema)
    ensures !x.DoesRequireValidation() ==> ValidationLines(x) == Ok([])
    ensures x.DoesRequireValidation() && ValidationLines(x).Ok? ==>
      var r := ValidationLines(x).value;
      r[2].code == "std::optional<std::string> error_message() const noexcept"
      && r[|r| - 2] == CodeLine("return std::nullopt;", 1)
    ensures ValidationLines(x).Err? ==>
      exists i :: 0 <= i < |x.Properties()| && x.Properties()[i].DoesRequireValidation()
        && !x.Properties()[i].isPropertyInherited
        && PropertyClauses(x.Properties()[i], i, "self.") == Err(ValidationLines(x).failure)
  {
    if ValidationLines(x).Err? {
      CollectFailure(x.Properties(), "self.", PropertyClauses);
    }
  }

  // ---------------------------------------------------------------------------
  // MakeConstructors
  // ---------------------------------------------------------------------------

  /** The argument of the explicit constructor for one required property, by
   *  value or by const reference. */
  function ArgumentOf(p: CppSchema): string {
    if p.doPassByValue then Method(p) + "_type " + Method(p)
    else "const " + Method(p) + "_type& " + Method(p)
  }

  function Arguments(rp: seq<CppSchema>): seq<string> {
    seq(|rp|, i requires 0 <= i < |rp| => ArgumentOf(rp[i]))
  }

  /** The values the base constructors' formats receive. */
  function DefaultArgs(rp: seq<CppSchema>): seq<string> {
    seq(|rp|, i requires 0 <= i < |rp| => rp[i].defaultValueCode)
  }

  function ExplicitArgs(rp: seq<CppSchema>): seq<string> {
    seq(|rp|, i requires 0 <= i < |rp| => Method(rp[i]))
  }

  /** The initializer of an own required property's field. */
  function Initializer(p: CppSchema, i: nat): seq<string> {
    [Field(p) + "(" + Method(p) + ")"]
  }

  function FieldInitializers(rp: seq<CppSchema>): seq<string> {
    Gather(Own(rp), Initializer)
  }

  /** A base class constructed from its format applied to `args`; a base
   *  without a format is default-constructed and not listed. */
  function BaseConstructor(o: Option<HppInherit>, i: nat, args: seq<string>): Result<seq<string>> {
    var format := BaseOf(o).constructorArgumentsFormat;
    if format.None? then Ok([])
    else
      var text := StringFormat(format.value, args);
      if text.Err? then Err(text.failure) else Ok(["base_type_" + NatText(i) + "(" + text.value + ")"])
  }

  function BaseConstructors(inherits: seq<Option<HppInherit>>, args: seq<string>): Result<seq<string>> {
    Collect(inherits, args, BaseConstructor)
  }

  /** The body of a constructor: empty, or one call of `validate`. */
  function BodyLine(k: nat, t: string): CodeLine {
    match k
      case 0 => CodeLine("{", 0)
      case 1 => CodeLine("this->validate();", 1)
      case _ => CodeLine("} // " + t + "(...)", 0)
  }

  function BodyLines(validates: bool, t: string): seq<CodeLine> {
    if validates then seq(3, k requires 0 <= k < 3 => BodyLine(k, t)) else [CodeLine("{ }", 0)]
  }

  /** A constructor: its declaration, its initializer list and its body. */
  function ConstructorBlock(declaration: string, initializers: seq<string>, validates: bool, t: string): seq<CodeLine> {
    [CodeLine(declaration, 0)] + ListLines(initializers, 1) + BodyLines(validates, t)
  }

  function DefaultDeclaration(x: CppSchema): string {
    x.typename + "()" + (if x.DoesRequireValidation() then "" else " noexcept")
  }

  function ExplicitDeclaration(x: CppSchema): string {
    var rp := x.RequiredProperties();
    (if |rp| == 1 then "explicit " else "")
      + (x.typename + "(" + (Join(", ", Arguments(rp)) + ")" + (if x.DoesRequireValidation() then "" else " noexcept")))
  }

  /** What MakeConstructors builds: the default constructor, then, when some
   *  property is required, the explicit one taking the required properties. */
  function ConstructorLines(x: CppSchema): Result<seq<CodeLine>> {
    var rp := x.RequiredProperties();
    var v := x.DoesRequireValidation();
    var defaults := BaseConstructors(x.Inherits(), DefaultArgs(rp));
    var explicits := BaseConstructors(x.Inherits(), ExplicitArgs(rp));
    if defaults.Err? || explicits.Err? then Err(FormatError)
    else if |rp| == 0 then Ok(DefaultBlock(x, defaults.value))
    else Ok(DefaultBlock(x, defaults.value) + [CodeLine("", 0)] + ExplicitBlock(x, explicits.value))
  }

  /** The default constructor, after the given base constructors. */
  function DefaultBlock(x: CppSchema, bases: seq<string>): seq<CodeLine> {
    ConstructorBlock(DefaultDeclaration(x), bases, x.DoesRequireValidation(), x.typename)
  }

  /** The explicit constructor: the given base constructors, then the own
   *  required fields. */
  function ExplicitBlock(x: CppSchema, bases: seq<string>): seq<CodeLine> {
    ConstructorBlock(ExplicitDeclaration(x), bases + FieldInitializers(x.RequiredProperties()),
      x.DoesRequireValidation(), x.typename)
  }

  lemma ArgumentsStep(rp: seq<CppSchema>, k: nat)
    requires k < |rp|
    ensures DefaultArgs(rp[..k + 1]) == DefaultArgs(rp[..k]) + [rp[k].defaultValueCode]
    ensures ExplicitArgs(rp[..k + 1]) == ExplicitArgs(rp[..k]) + [Method(rp[k])]
    ensures Arguments(rp[..k + 1]) == Arguments(rp[..k]) + [ArgumentOf(rp[k])]
  {
    assert rp[..k + 1][..k] == rp[..k];
    DefaultArgsStep(rp, k);
    ExplicitArgsStep(rp, k);
    ArgumentListStep(rp, k);
  }

  lemma DefaultArgsStep(rp: seq<CppSchema>, k: nat)
    requires k < |rp|
    ensures DefaultArgs(rp[..k + 1]) == DefaultArgs(rp[..k]) + [rp[k].defaultValueCode]
  {
    assert |DefaultArgs(rp[..k + 1])| == |DefaultArgs(rp[..k]) + [rp[k].defaultValueCode]|;
  }

  lemma ExplicitArgsStep(rp: seq<CppSchema>, k: nat)
    requires k < |rp|
    ensures ExplicitArgs(rp[..k + 1]) == ExplicitArgs(rp[..k]) + [Method(rp[k])]
  {
    assert |ExplicitArgs(rp[..k + 1])| == |ExplicitArgs(rp[..k]) + [Method(rp[k])]|;
  }

  lemma ArgumentListStep(rp: seq<CppSchema>, k: nat)
    requires k < |rp|
    ensures Arguments(rp[..k + 1]) == Arguments(rp[..k]) + [ArgumentOf(rp[k])]
  {
    assert rp[..k + 1] == rp[..k] + [rp[k]];
    ArgumentsAppend(rp[..k], rp[k]);
  }

  lemma ArgumentsAppend(a: seq<CppSchema>, p: CppSchema)
    ensures Arguments(a + [p]) == Arguments(a) + [ArgumentOf(p)]
  {
    var l := Arguments(a + [p]);
    var r := Arguments(a) + [ArgumentOf(p)];
    assert |l| == |r|;
    forall i | 0 <= i < |l|
      ensures l[i] == r[i]
    {
      if i < |a| {
        assert (a + [p])[i] == a[i];
      }
    }
  }

  /** The loop over the required properties. */
  method RequiredArguments(rp: seq<CppSchema>) returns (defaults: seq<string>, explicits: seq<string>,
      arguments: seq<string>, initializers: seq<string>)
    ensures defaults == DefaultArgs(rp) && explicits == ExplicitArgs(rp)
    ensures arguments == Arguments(rp) && initializers == FieldInitializers(rp)
  {
    defaults, explicits, arguments, initializers := [], [], [], [];
    var k := 0;
    while k < |rp|
      invariant 0 <= k <= |rp|
      invariant defaults == DefaultArgs(rp[..k]) && explicits == ExplicitArgs(rp[..k])
      invariant arguments == Arguments(rp[..k])
      invariant initializers == Gather(Own(rp[..k]), Initializer)
    {
      ArgumentsStep(rp, k);
      OwnGatherStep(rp, Initializer, k);
      var p := rp[k];
      defaults := defaults + [p.defaultValueCode];
      explicits := explicits + [Method(p)];
      arguments := arguments + [ArgumentOf(p)];
      if !p.isPropertyInherited {
        initializers := initializers + Initializer(p, |Own(rp[..k])|);
      }
      k := k + 1;
    }
    assert rp[..k] == rp;
  }

  /** The loop over the base classes; either format may fail. */
  method BaseConstructorCalls(inherits: seq<Option<HppInherit>>, defaultArgs: seq<string>, explicitArgs: seq<string>)
      returns (r: Result<(seq<string>, seq<string>)>)
    ensures r.Ok? <==> BaseConstructors(inherits, defaultArgs).Ok? && BaseConstructors(inherits, explicitArgs).Ok?
    ensures r.Err? ==> r.failure == FormatError
    ensures r.Ok? ==> r.value.0 == BaseConstructors(inherits, defaultArgs).value
    ensures r.Ok? ==> r.value.1 == BaseConstructors(inherits, explicitArgs).value
  {
    var baseDefaults: seq<string> := [];
    var baseExplicits: seq<string> := [];
    var k := 0;
    while k < |inherits|
      invariant 0 <= k <= |inherits|
      invariant Collect(inherits[..k], defaultArgs, BaseConstructor) == Ok(baseDefaults)
      invariant Collect(inherits[..k], explicitArgs, BaseConstructor) == Ok(baseExplicits)
    {
      CollectStep(inherits, defaultArgs, BaseConstructor, k);
      CollectStep(inherits, explicitArgs, BaseConstructor, k);
      var format := BaseOf(inherits[k]).constructorArgumentsFormat;
      if format.Some? {
        var d := StringFormat(format.value, defaultArgs);
        var e := StringFormat(format.value, explicitArgs);
        if d.Err? || e.Err? {
          StringFormatFailure(format.value, defaultArgs);
          StringFormatFailure(format.value, explicitArgs);
          if d.Err? {
            CollectStops(inherits, defaultArgs, BaseConstructor, k + 1);
          } else {
            CollectStops(inherits, explicitArgs, BaseConstructor, k + 1);
          }
          return Err(FormatError);
        }
        var baseTypename := "base_type_" + NatText(k);
        baseDefaults := baseDefaults + [baseTypename + "(" + d.value + ")"];
        baseExplicits := baseExplicits + [baseTypename + "(" + e.value + ")"];
      } else {
        assert baseDefaults + [] == baseDefaults && baseExplicits + [] == baseExplicits;
      }
      k := k + 1;
    }
    assert inherits[..k] == inherits;
    r := Ok((baseDefaults, baseExplicits));
  }

  method AppendConstructor(b: CodeBuilder, declaration: string, initializers: seq<string>, validates: bool, t: string)
    modifies b
    ensures b.tabLevel == old(b.tabLevel)
    ensures b.lines == old(b.lines) + ConstructorBlock(declaration, initializers, validates, t)
  {
    b.Append(declaration, 0 - b.tabLevel);
    AppendRun(b, ListLines(initializers, 1));
    AppendRun(b, BodyLines(validates, t));
  }

  method MakeConstructors(x: CppSchema) returns (r: Result<CodeBuilder>)
    ensures r.Ok? <==> ConstructorLines(x).Ok?
    ensures r.Err? ==> ConstructorLines(x) == Err(r.failure)
    ensures r.Ok? ==> fresh(r.value) && r.value.tabLevel == 0 && r.value.lines == ConstructorLines(x).value
  {
    var rp := x.RequiredProperties();
    var defaults, explicits, arguments, initializers := RequiredArguments(rp);
    var bases := BaseConstructorCalls(x.Inherits(), defaults, explicits);
    if bases.Err? {
      return Err(bases.failure);
    }
    var b := new CodeBuilder();
    AppendDefaultConstructor(b, x, bases.value.0);
    assert b.lines == DefaultBlock(x, bases.value.0);
    if |rp| == 0 {
      return Ok(b);
    }
    b.AppendEmpty();
    AppendExplicitConstructor(b, x, arguments, bases.value.1, initializers);
    r := Ok(b);
  }

  method AppendDefaultConstructor(b: CodeBuilder, x: CppSchema, bases: seq<string>)
    modifies b
    ensures b.tabLevel == old(b.tabLevel) && b.lines == old(b.lines) + DefaultBlock(x, bases)
  {
    var v := x.DoesRequireValidation();
    AppendConstructor(b, x.typename + "()" + (if v then "" else " noexcept"), bases, v, x.typename);
  }

  /** The explicit constructor, from the arguments and initializers the loop
   *  over the required properties built. */
  method AppendExplicitConstructor(b: CodeBuilder, x: CppSchema, arguments: seq<string>, bases: seq<string>,
      initializers: seq<string>)
    requires arguments == Arguments(x.RequiredProperties())
    requires initializers == FieldInitializers(x.RequiredProperties())
    modifies b
    ensures b.tabLevel == old(b.tabLevel) && b.lines == old(b.lines) + ExplicitBlock(x, bases)
  {
    var v := x.DoesRequireValidation();
    var declaration := (if |arguments| == 1 then "explicit " else "")
      + (x.typename + "(" + (Join(", ", arguments) + ")" + (if v then "" else " noexcept")));
    AppendConstructor(b, declaration, bases + initializers, v, x.typename);
  }

  /** Both constructors are noexcept exactly when the struct does not
   *  validate itself. */
  lemma NoexceptSpec(x: CppSchema)
    ensures EndsWith(DefaultDeclaration(x), " noexcept") <==> !x.DoesRequireValidation()
    ensures EndsWith(ExplicitDeclaration(x), " noexcept") <==> !x.DoesRequireValidation()
  {
    var rp := x.RequiredProperties();
    var t := x.typename;
    var pre := if |rp| == 1 then "explicit " else "";
    var args := Join(", ", Arguments(rp)) + ")";
    var inner := args + (if x.DoesRequireValidation() then "" else " noexcept");
    assert ExplicitDeclaration(x) == pre + (t + "(" + inner);
    if x.DoesRequireValidation() {
      assert inner == args;
      LastOf(t + "(", inner);
      LastOf(pre, t + "(" + inner);
      LastOf(t, "()");
      assert DefaultDeclaration(x) == t + "()";
      NotNoexcept(pre + (t + "(" + inner));
      NotNoexcept(t + "()");
    } else {
      EndsWithRight(args, " noexcept", " noexcept");
      EndsWithRight(t + "(", inner, " noexcept");
      EndsWithRight(pre, t + "(" + inner, " noexcept");
      EndsWithRight(t + "()", " noexcept", " noexcept");
    }
  }

  lemma EndsWithRight(a: string, b: string, suffix: string)
    requires EndsWith(b, suffix)
    ensures EndsWith(a + b, suffix)
  {
    assert (a + b)[|a + b| - |suffix|..] == b[|b| - |suffix|..];
  }

  lemma LastOf(a: string, b: string)
    requires |b| > 0
    ensures |a + b| > 0 && (a + b)[|a + b| - 1] == b[|b| - 1]
  {
  }

  /** A declaration closed by its argument list is not noexcept. */
  lemma NotNoexcept(c: string)
    requires |c| > 0 && c[|c| - 1] == ')'
    ensures !EndsWith(c, " noexcept")
  {
    if |c| >= 9 {
      assert c[|c| - 9..][8] == c[|c| - 1];
    }
  }

  /** The explicit constructor is marked `explicit` exactly when a single
   *  property is required. */
  lemma ExplicitSpec(x: CppSchema)
    requires ' ' !in x.typename
    ensures StartsWith(ExplicitDeclaration(x), "explicit ") <==> |x.RequiredProperties()| == 1
  {
    var rp := x.RequiredProperties();
    var tail := Join(", ", Arguments(rp)) + ")" + (if x.DoesRequireValidation() then "" else " noexcept");
    var rest := x.typename + "(" + tail;
    if |rp| == 1 {
      Explicit(rest);
    } else {
      NotExplicit(x.typename, tail);
    }
  }

  lemma Explicit(rest: string)
    ensures StartsWith("explicit " + rest, "explicit ")
  {
    assert ("explicit " + rest)[..9] == "explicit ";
  }

  /** A declaration that begins with a typename without spaces, then its
   *  argument list, is not marked `explicit`. */
  lemma NotExplicit(t: string, rest: string)
    requires ' ' !in t
    ensures !StartsWith(t + "(" + rest, "explicit ")
  {
    var c := t + "(" + rest;
    if |t| >= 9 {
      assert c[8] == t[8] && t[8] != ' ';
    } else {
      assert c[|t|] == '(' && "explicit "[|t|] != '(';
    }
  }

  /** A body calls `validate` exactly when the struct validates itself. */
  lemma BodySpec(v: bool, t: string)
    ensures CodeLine("this->validate();", 1) in BodyLines(v, t) <==> v
  {
    if v {
      assert BodyLines(v, t)[1] == CodeLine("this->validate();", 1);
    }
  }

  /** The explicit constructor is there exactly when some property is
   *  required, and then initializes every own one. */
  lemma ConstructorsSpec(x: CppSchema)
    requires ConstructorLines(x).Ok?
    ensures var r := ConstructorLines(x).value;
      var rp := x.RequiredProperties();
      var d := BaseConstructors(x.Inherits(), DefaultArgs(rp)).value;
      var e := BaseConstructors(x.Inherits(), ExplicitArgs(rp)).value;
      var head := DefaultBlock(x, d);
      r[..|head|] == head && r[0].code == DefaultDeclaration(x)
      && (|rp| == 0 <==> |r| == |head|)
      && (|rp| > 0 ==>
            (|r| > |head| + 1 && r[|head| + 1].code == ExplicitDeclaration(x)
             && |r| == |head| + 2 + |e| + |Own(rp)| + |BodyLines(x.DoesRequireValidation(), x.typename)|))
  {
    var rp := x.RequiredProperties();
    GatherSingles(Own(rp), Initializer);
  }

  // ---------------------------------------------------------------------------
  // MakePropertyAccessors
  // ---------------------------------------------------------------------------

  function GetterLine(p: CppSchema): string {
    if p.doPassByValue
    then Method(p) + "_type " + Method(p) + "() const noexcept { return this->" + Field(p) + "; }"
    else "const " + Method(p) + "_type& " + Method(p) + "() const noexcept { return this->" + Field(p) + "; }"
  }

  function SetterSignature(p: CppSchema): string {
    if p.doPassByValue
    then "void set_" + Method(p) + "(" + Method(p) + "_type value)"
    else "void set_" + Method(p) + "(const " + Method(p) + "_type& value)"
  }

  /** A setter of a validated property assigns, then validates. */
  function SetterLine(k: nat, p: CppSchema): CodeLine {
    match k
      case 0 => CodeLine("", 0)
      case 1 => CodeLine(SetterSignature(p), 0)
      case 2 => CodeLine("{", 0)
      case 3 => CodeLine("this->" + Field(p) + " = value;", 1)
      case 4 => CodeLine("this->validate();", 1)
      case _ => CodeLine("} // set_" + Method(p) + "(...)", 0)
  }

  function SetterRun(p: CppSchema): seq<CodeLine> {
    seq(6, k requires 0 <= k < 6 => SetterLine(k, p))
  }

  /** The getter and setter of one own property. */
  function AccessorBlock(p: CppSchema, i: nat): seq<CodeLine> {
    [CodeLine("", 0)] + [CodeLine(GetterLine(p), 0)]
    + (if !p.DoesRequireValidation()
       then [CodeLine("", 0)] + [CodeLine(SetterSignature(p) + " noexcept { this->" + Field(p) + " = value; }", 0)]
       else SetterRun(p))
  }

  /** What MakePropertyAccessors builds: one block per own property. */
  function AccessorLines(ps: seq<CppSchema>): seq<CodeLine> {
    Gather(Own(ps), AccessorBlock)
  }

  method MakePropertyAccessors(x: CppSchema) returns (b: CodeBuilder)
    ensures fresh(b) && b.tabLevel == 0 && b.lines == AccessorLines(x.Properties())
  {
    var ps := x.Properties();
    b := new CodeBuilder();
    var k := 0;
    while k < |ps|
      invariant 0 <= k <= |ps| && b.tabLevel == 0
      invariant b.lines == Gather(Own(ps[..k]), AccessorBlock)
    {
      OwnGatherStep(ps, AccessorBlock, k);
      var p := ps[k];
      if !p.isPropertyInherited {
        AppendRun(b, AccessorBlock(p, |Own(ps[..k])|));
      }
      k := k + 1;
    }
    assert ps[..k] == ps;
  }

  /** A setter validates exactly when its property needs validation; a
   *  setter that does not validate is a single noexcept line. */
  lemma AccessorSpec(p: CppSchema, i: nat)
    ensures AccessorBlock(p, i)[1] == CodeLine(GetterLine(p), 0)
    ensures p.DoesRequireValidation() <==> CodeLine("this->validate();", 1) in AccessorBlock(p, i)
    ensures !p.DoesRequireValidation() <==> |AccessorBlock(p, i)| == 4
  {
    if p.DoesRequireValidation() {
      assert AccessorBlock(p, i)[6] == CodeLine("this->validate();", 1);
    }
  }

  // ---------------------------------------------------------------------------
  // MakeNlohmannUtils
  // ---------------------------------------------------------------------------

  function ToJsonHeadLine(k: nat): CodeLine {
    match k
      case 0 => CodeLine("", 0)
      case 1 => CodeLine("friend void to_json(nlohmann::json& j, const type& x) noexcept", 0)
      case _ => CodeLine("{", 0)
  }

  function ToJsonHeadRun(): seq<CodeLine> {
    seq(3, k requires 0 <= k < 3 => ToJsonHeadLine(k))
  }

  /** The required properties in the initializer, comma-separated. */
  function RequiredJsonLines(rp: seq<CppSchema>): seq<CodeLine> {
    seq(|rp|, i requires 0 <= i < |rp| =>
      CodeLine("{type::jstr_" + Method(rp[i]) + ", x." + Field(rp[i]) + "}" + (if i == |rp| - 1 then "" else ","), 2))
  }

  function InitializerLines(x: CppSchema): seq<CodeLine> {
    if x.CountRequired() == 0 then [CodeLine("j = nlohmann::json{};", 1)]
    else [CodeLine("j = nlohmann::json{", 1)] + RequiredJsonLines(x.RequiredProperties()) + [CodeLine("};", 1)]
  }

  /** An optional property is written unless it has its default: by its
   *  condition format when it has one, against a default instance otherwise. */
  function OptionalJsonLine(p: CppSchema): (r: Result<seq<CodeLine>>)
    ensures r.Ok? ==> |r.value| == 1
  {
    var write := " j[std::string(type::jstr_" + Method(p) + ")] = x." + Field(p) + ";";
    if p.defaultConditionFormat.None?
    then Ok([CodeLine("if (x." + Field(p) + " != default_instance." + Field(p) + ")" + write, 1)])
    else
      var condition := FormatOne(p.defaultConditionFormat.value, "x." + Field(p));
      if condition.Err? then Err(condition.failure) else Ok([CodeLine("if (!(" + condition.value + "))" + write, 1)])
  }

  /** The loop skips the first `countRequired` properties. */
  function OptionalJsonAt(p: CppSchema, i: nat, countRequired: nat): Result<seq<CodeLine>> {
    if i < countRequired then Ok([]) else OptionalJsonLine(p)
  }

  function OptionalJsonLines(ps: seq<CppSchema>, countRequired: nat): Result<seq<CodeLine>> {
    Collect(ps, countRequired, OptionalJsonAt)
  }

  function DefaultInstanceLine(k: nat): CodeLine {
    match k
      case 1 => CodeLine("static type default_instance {};", 1)
      case _ => CodeLine("", 1)
  }

  function DefaultInstanceRun(): seq<CodeLine> {
    seq(3, k requires 0 <= k < 3 => DefaultInstanceLine(k))
  }

  /** The optional part of `to_json`, when some property is optional. */
  function OptionalBlock(x: CppSchema): Result<seq<CodeLine>> {
    if x.CountOptional() == 0 then Ok([])
    else
      var lines := OptionalJsonLines(x.Properties(), x.CountRequired());
      if lines.Err? then Err(lines.failure) else Ok(DefaultInstanceRun() + lines.value)
  }

  function FromJsonLine(k: nat, t: string): CodeLine {
    match k
      case 0 => CodeLine("} // to_json(...)", 0)
      case 1 => CodeLine("", 0)
      case 2 => CodeLine("friend void from_json(const nlohmann::json& j, type& x)", 0)
      case 3 => CodeLine("{", 0)
      case 4 => CodeLine("if (!ropufu::noexcept_json::try_get(j, x))", 1)
      case 5 => CodeLine("throw std::runtime_error(\"Parsing <" + t + "> failed: \" + j.dump());", 2)
      case _ => CodeLine("} // from_json(...)", 0)
  }

  function FromJsonRun(t: string): seq<CodeLine> {
    seq(7, k requires 0 <= k < 7 => FromJsonLine(k, t))
  }

  /** What MakeNlohmannUtils builds: `to_json` with the required properties in
   *  the initializer and the optional ones after it, and `from_json` through
   *  the noexcept serializer. */
  function NlohmannLines(x: CppSchema): Result<seq<CodeLine>> {
    var optional := OptionalBlock(x);
    if optional.Err? then Err(optional.failure)
    else Ok(ToJsonHeadRun() + InitializerLines(x) + optional.value + FromJsonRun(x.typename))
  }

  method AppendOptionalJson(b: CodeBuilder, ps: seq<CppSchema>, countRequired: nat) returns (r: Result<()>)
    modifies b
    ensures b.tabLevel == old(b.tabLevel)
    ensures r.Ok? <==> OptionalJsonLines(ps, countRequired).Ok?
    ensures r.Err? ==> OptionalJsonLines(ps, countRequired) == Err(r.failure)
    ensures r.Ok? ==> b.lines == old(b.lines) + OptionalJsonLines(ps, countRequired).value
  {
    var k := 0;
    while k < |ps|
      invariant 0 <= k <= |ps| && b.tabLevel == old(b.tabLevel)
      invariant Collect(ps[..k], countRequired, OptionalJsonAt).Ok?
      invariant b.lines == old(b.lines) + Collect(ps[..k], countRequired, OptionalJsonAt).value
    {
      if k >= countRequired {
        var line := OptionalJsonLine(ps[k]);
        if line.Err? {
          StepStops(ps, countRequired, OptionalJsonAt, k);
          return Err(line.failure);
        }
        AppendRun(b, line.value);
        StepAppends(old(b.lines), ps, countRequired, OptionalJsonAt, k, line.value);
      } else {
        StepAppends(old(b.lines), ps, countRequired, OptionalJsonAt, k, []);
      }
      k := k + 1;
    }
    assert ps[..k] == ps;
    r := Ok(());
  }

  method AppendOptionalBlock(b: CodeBuilder, x: CppSchema) returns (r: Result<()>)
    modifies b
    ensures b.tabLevel == old(b.tabLevel)
    ensures r.Ok? <==> OptionalBlock(x).Ok?
    ensures r.Err? ==> OptionalBlock(x) == Err(r.failure)
    ensures r.Ok? ==> b.lines == old(b.lines) + OptionalBlock(x).value
  {
    if x.CountOptional() == 0 {
      return Ok(());
    }
    AppendRun(b, DefaultInstanceRun());
    r := AppendOptionalJson(b, x.Properties(), x.CountRequired());
  }

  method MakeNlohmannUtils(x: CppSchema) returns (r: Result<CodeBuilder>)
    ensures r.Ok? <==> NlohmannLines(x).Ok?
    ensures r.Err? ==> NlohmannLines(x) == Err(r.failure)
    ensures r.Ok? ==> fresh(r.value) && r.value.tabLevel == 0 && r.value.lines == NlohmannLines(x).value
  {
    var b := ToJsonOpening(x);
    var done := AppendOptionalBlock(b, x);
    if done.Err? {
      return Err(done.failure);
    }
    AppendRun(b, FromJsonRun(x.typename));
    r := Ok(b);
  }

  /** A fresh builder holding `to_json`'s head and its initializer. */
  method ToJsonOpening(x: CppSchema) returns (b: CodeBuilder)
    ensures fresh(b) && b.tabLevel == 0 && b.lines == ToJsonHeadRun() + InitializerLines(x)
  {
    b := new CodeBuilder();
    AppendRun(b, ToJsonHeadRun());
    AppendRun(b, InitializerLines(x));
  }

  /** Before `countRequired` the loop appends nothing. */
  lemma {:induction false} RequiredPrefixEmpty(ps: seq<CppSchema>, countRequired: nat, k: nat)
    requires k <= countRequired && k <= |ps|
    ensures Collect(ps[..k], countRequired, OptionalJsonAt) == Ok([])
  {
    if k > 0 {
      RequiredPrefixEmpty(ps, countRequired, k - 1);
      CollectStep(ps, countRequired, OptionalJsonAt, k - 1);
      var prev := Collect(ps[..k - 1], countRequired, OptionalJsonAt);
      var step := OptionalJsonAt(ps[k - 1], k - 1, countRequired);
      assert prev.Ok? && prev.value == [] && step.Ok? && step.value == [];
      assert prev.value + step.value == [];
    } else {
      assert ps[..k] == [];
    }
  }

  lemma {:induction false} OptionalJsonPrefix(ps: seq<CppSchema>, countRequired: nat, k: nat)
    requires countRequired <= k <= |ps| && Collect(ps[..k], countRequired, OptionalJsonAt).Ok?
    ensures var r := Collect(ps[..k], countRequired, OptionalJsonAt).value;
      |r| == k - countRequired
      && forall i :: countRequired <= i < k ==> OptionalJsonLine(ps[i]) == Ok([r[i - countRequired]])
  {
    if k == countRequired {
      RequiredPrefixEmpty(ps, countRequired, k);
    } else {
      CollectStep(ps, countRequired, OptionalJsonAt, k - 1);
      OptionalJsonPrefix(ps, countRequired, k - 1);
      var prev := Collect(ps[..k - 1], countRequired, OptionalJsonAt).value;
      ExtendOptionalJson(ps, countRequired, k, prev, OptionalJsonLine(ps[k - 1]).value);
    }
  }

  /** One more optional property's line after those of the ones before it. */
  lemma ExtendOptionalJson(ps: seq<CppSchema>, countRequired: nat, k: nat, prev: seq<CodeLine>, line: seq<CodeLine>)
    requires countRequired < k <= |ps| && |prev| == k - 1 - countRequired
    requires OptionalJsonLine(ps[k - 1]) == Ok(line)
    requires forall i :: countRequired <= i < k - 1 ==> OptionalJsonLine(ps[i]) == Ok([prev[i - countRequired]])
    ensures |prev + line| == k - countRequired
    ensures forall i :: countRequired <= i < k ==> OptionalJsonLine(ps[i]) == Ok([(prev + line)[i - countRequired]])
  {
    forall i | countRequired <= i < k
      ensures OptionalJsonLine(ps[i]) == Ok([(prev + line)[i - countRequired]])
    {
      if i < k - 1 {
        assert (prev + line)[i - countRequired] == prev[i - countRequired];
      }
    }
  }

  /** With the required properties first, `to_json` writes one line per
   *  optional property, in order, each comparing it with its default. */
  lemma OptionalJsonSpec(ps: seq<CppSchema>, countRequired: nat)
    requires countRequired <= |ps| && OptionalJsonLines(ps, countRequired).Ok?
    ensures var r := OptionalJsonLines(ps, countRequired).value;
      |r| == |ps| - countRequired
      && forall i :: countRequired <= i < |ps| ==> OptionalJsonLine(ps[i]) == Ok([r[i - countRequired]])
  {
    assert ps[..|ps|] == ps;
    OptionalJsonPrefix(ps, countRequired, |ps|);
  }

  // ---------------------------------------------------------------------------
  // MakeStructBody
  // ---------------------------------------------------------------------------

  // Below, every line carries its absolute indentation level: the namespace's
  // block is level 1 and the struct's block level 2.

  function SignatureLines(n: StructNames): seq<CodeLine> {
    if n.templateSignature.Some? then [CodeLine(n.templateSignature.value, 1)] else []
  }

  function DescriptionLines(x: CppSchema): seq<CodeLine> {
    if x.description.Some? then [CodeLine("/** " + x.description.value + " */", 1)] else []
  }

  function BaseListItems(inherits: seq<Option<HppInherit>>): seq<string> {
    seq(|inherits|, i requires 0 <= i < |inherits| =>
      Interpolated(BaseOf(inherits[i]).inheritanceType) + " " + Interpolated(BaseOf(inherits[i]).name))
  }

  // The forward declarations and the struct's opening, each declaration
  // preceded by the template signature.

  function NamespaceOpening(x: CppSchema): seq<CodeLine> {
    [CodeLine("namespace " + Interpolated(x.namespace), 0)] + [CodeLine("{", 0)]
  }

  function ForwardLines(x: CppSchema, n: StructNames): seq<CodeLine> {
    DescriptionLines(x) + SignatureLines(n) + [CodeLine("struct " + x.typename + ";", 1)] + [CodeLine("", 1)]
  }

  function ConversionLines(n: StructNames): seq<CodeLine> {
    SignatureLines(n) + [CodeLine("void to_json(nlohmann::json& j, const " + n.templatedStructName + "& x) noexcept;", 1)]
    + SignatureLines(n) + [CodeLine("void from_json(const nlohmann::json& j, " + n.templatedStructName + "& x);", 1)]
    + [CodeLine("", 1)]
  }

  /** The struct's head, with its base classes listed after the colon. */
  function StructOpening(x: CppSchema, n: StructNames): seq<CodeLine> {
    SignatureLines(n) + [CodeLine("struct " + x.typename, 1)]
    + ListLines(BaseListItems(x.Inherits()), 2) + [CodeLine("{", 1)]
  }

  function KeysHeadLine(k: nat): CodeLine {
    match k
      case 0 => CodeLine("", 2)
      case _ => CodeLine("// ~~ Json keys ~~", 2)
  }

  function KeysHeadRun(): seq<CodeLine> {
    seq(2, k requires 0 <= k < 2 => KeysHeadLine(k))
  }

  /** The JSON key of every property, inherited ones included. */
  function KeyLines(ps: seq<CppSchema>): seq<CodeLine> {
    seq(|ps|, i requires 0 <= i < |ps| =>
      CodeLine("static constexpr std::string_view jstr_" + Method(ps[i]) + " = \""
        + Interpolated(ps[i].propertyName) + "\";", 2))
  }

  function FriendLine(k: nat): CodeLine {
    match k
      case 1 => CodeLine("friend ropufu::noexcept_json_serializer<type>;", 2)
      case 2 => CodeLine("friend std::hash<type>;", 2)
      case 4 => CodeLine("protected:", 1)
      case _ => CodeLine("", 2)
  }

  function FriendRun(): seq<CodeLine> {
    seq(5, k requires 0 <= k < 5 => FriendLine(k))
  }

  /** The field of an own property, with its description as a comment. */
  function FieldLine(p: CppSchema, i: nat): seq<CodeLine> {
    [CodeLine(Method(p) + "_type " + Field(p) + " = " + p.defaultValueCode + ";"
      + (if p.description.Some? then " // " + p.description.value else ""), 2)]
  }

  function FieldLines(ps: seq<CppSchema>): seq<CodeLine> {
    Gather(Own(ps), FieldLine)
  }

  /** The keys and the friends. */
  function KeyBlock(ps: seq<CppSchema>): seq<CodeLine> {
    KeysHeadRun() + KeyLines(ps) + FriendRun()
  }

  /** Hard validation, after the access specifier. */
  function PublicLine(k: nat, validates: bool): CodeLine {
    if !validates then
      match k
        case 1 => CodeLine("public:", 1)
        case 2 => CodeLine("constexpr void validate() const noexcept { }", 2)
        case _ => CodeLine("", 2)
    else
      match k
        case 1 => CodeLine("public:", 1)
        case 2 => CodeLine("/** @exception std::logic_error Validation failed. */", 2)
        case 3 => CodeLine("void validate() const", 2)
        case 4 => CodeLine("{", 2)
        case 5 => CodeLine("std::optional<std::string> message = this->error_message();", 3)
        case 6 => CodeLine("if (message.has_value()) throw std::logic_error(message.value());", 3)
        case 7 => CodeLine("} // validate(...)", 2)
        case _ => CodeLine("", 2)
  }

  function PublicRun(validates: bool): seq<CodeLine> {
    var count := if validates then 9 else 4;
    seq(count, k requires 0 <= k < count => PublicLine(k, validates))
  }

  function EqualityHeadLine(k: nat): CodeLine {
    match k
      case 1 => CodeLine("/** Checks if this object is equivalent to \\param other. */", 2)
      case 2 => CodeLine("bool operator ==(const type& other) const noexcept", 2)
      case 3 => CodeLine("{", 2)
      case 4 => CodeLine("return", 3)
      case _ => CodeLine("", 2)
  }

  function EqualityHeadRun(): seq<CodeLine> {
    seq(5, k requires 0 <= k < 5 => EqualityHeadLine(k))
  }

  /** Equality compares every field, inherited ones included. */
  function EqualityLines(ps: seq<CppSchema>): seq<CodeLine> {
    seq(|ps|, i requires 0 <= i < |ps| =>
      CodeLine("this->" + Field(ps[i]) + " == other." + Field(ps[i]) + (if i == |ps| - 1 then ";" else " &&"), 4))
  }

  function EqualityTailLine(k: nat): CodeLine {
    match k
      case 0 => CodeLine("} // operator ==(...)", 2)
      case 1 => CodeLine("", 2)
      case 2 => CodeLine("/** Checks if this object is not equivalent to \\param other. */", 2)
      case _ => CodeLine("bool operator !=(const type& other) const noexcept { return !this->operator ==(other); }", 2)
  }

  function EqualityTailRun(): seq<CodeLine> {
    seq(4, k requires 0 <= k < 4 => EqualityTailLine(k))
  }

  function ExtensionLines(extensions: seq<string>): seq<CodeLine> {
    if |extensions| == 0 then []
    else [CodeLine("", 2)] + seq(|extensions|, i requires 0 <= i < |extensions| => CodeLine(extensions[i], 2))
  }

  function EqualityBlock(ps: seq<CppSchema>): seq<CodeLine> {
    EqualityHeadRun() + EqualityLines(ps) + EqualityTailRun()
  }

  /** What MakeStructBody builds, or the first failure of its parts: the
   *  opening; the typedefs, keys, friends and fields; the soft and hard
   *  validation; the constructors, accessors, equality and conversions; the
   *  extensions; and the closing of both blocks. */
  function StructBodyLines(x: CppSchema, n: StructNames): Result<seq<CodeLine>> {
    var ps := x.Properties();
    var validation := ValidationLines(x);
    if validation.Err? then Err(validation.failure)
    else
      var constructors := ConstructorLines(x);
      if constructors.Err? then Err(constructors.failure)
      else
        var nlohmann := NlohmannLines(x);
        if nlohmann.Err? then Err(nlohmann.failure)
        else Ok(StructBodyText(x, n, validation.value, constructors.value, nlohmann.value))
  }

  /** The struct's text around the parts that may fail to build. */
  function StructBodyText(x: CppSchema, n: StructNames, validation: seq<CodeLine>, constructors: seq<CodeLine>,
      nlohmann: seq<CodeLine>): seq<CodeLine> {
    var ps := x.Properties();
    NamespaceOpening(x) + ForwardLines(x, n) + ConversionLines(n) + StructOpening(x, n)
    + Rebased(TypedefLines(x, n), 2) + KeyBlock(ps) + FieldLines(ps)
    + Rebased(validation, 2) + PublicRun(x.DoesRequireValidation()) + Rebased(constructors, 2)
    + Rebased(AccessorLines(ps), 2) + EqualityBlock(ps) + Rebased(nlohmann, 2)
    + ExtensionLines(x.extensions)
    + [CodeLine("}; // struct " + x.typename, 1)] + [CodeLine("} // namespace " + Interpolated(x.namespace), 0)]
  }

  method AppendOpening(b: CodeBuilder, x: CppSchema, n: StructNames)
    modifies b
    ensures b.tabLevel == old(b.tabLevel)
    ensures b.lines == old(b.lines) + NamespaceOpening(x) + ForwardLines(x, n) + ConversionLines(n) + StructOpening(x, n)
  {
    AppendRun(b, NamespaceOpening(x));
    AppendRun(b, ForwardLines(x, n));
    AppendRun(b, ConversionLines(n));
    AppendRun(b, StructOpening(x, n));
  }

  method AppendFields(b: CodeBuilder, ps: seq<CppSchema>)
    modifies b
    ensures b.lines == old(b.lines) + FieldLines(ps) && b.tabLevel == old(b.tabLevel)
  {
    var k := 0;
    while k < |ps|
      invariant 0 <= k <= |ps| && b.tabLevel == old(b.tabLevel)
      invariant b.lines == old(b.lines) + Gather(Own(ps[..k]), FieldLine)
    {
      OwnGatherStep(ps, FieldLine, k);
      if !ps[k].isPropertyInherited {
        AppendRun(b, FieldLine(ps[k], |Own(ps[..k])|));
        Regroup(old(b.lines), Gather(Own(ps[..k]), FieldLine), FieldLine(ps[k], |Own(ps[..k])|));
      }
      k := k + 1;
    }
    assert ps[..k] == ps;
  }

  method AppendHead(b: CodeBuilder, x: CppSchema, n: StructNames)
    requires b.tabLevel == 2
    modifies b
    ensures b.tabLevel == old(b.tabLevel)
    ensures b.lines == old(b.lines) + Rebased(TypedefLines(x, n), 2) + KeyBlock(x.Properties()) + FieldLines(x.Properties())
  {
    var typedefs := MakeTypedefs(x, n);
    var _ := b.AppendBuilder(typedefs);
    AppendRun(b, KeyBlock(x.Properties()));
    AppendFields(b, x.Properties());
  }

  method AppendExtensions(b: CodeBuilder, extensions: seq<string>)
    modifies b
    ensures b.tabLevel == old(b.tabLevel) && b.lines == old(b.lines) + ExtensionLines(extensions)
  {
    if |extensions| > 0 {
      AppendRun(b, ExtensionLines(extensions));
    }
  }

  /** Everything inside the struct's block, where the builder stands at
   *  level 2, around the builders of the parts that may fail. */
  method AppendInterior(b: CodeBuilder, x: CppSchema, n: StructNames, validation: CodeBuilder,
      constructors: CodeBuilder, nlohmann: CodeBuilder)
    requires b.tabLevel == 2 && validation != b && constructors != b && nlohmann != b
    modifies b
    ensures b.tabLevel == old(b.tabLevel)
    ensures b.lines == old(b.lines) + Rebased(TypedefLines(x, n), 2) + KeyBlock(x.Properties())
      + FieldLines(x.Properties()) + Rebased(old(validation.lines), 2) + PublicRun(x.DoesRequireValidation())
      + Rebased(old(constructors.lines), 2) + Rebased(AccessorLines(x.Properties()), 2) + EqualityBlock(x.Properties())
      + Rebased(old(nlohmann.lines), 2) + ExtensionLines(x.extensions)
  {
    AppendHead(b, x, n);
    var _ := b.AppendBuilder(validation);
    AppendRun(b, PublicRun(x.DoesRequireValidation()));
    var _ := b.AppendBuilder(constructors);
    var accessors := MakePropertyAccessors(x);
    var _ := b.AppendBuilder(accessors);
    AppendRun(b, EqualityBlock(x.Properties()));
    var _ := b.AppendBuilder(nlohmann);
    AppendExtensions(b, x.extensions);
  }

  /** The forward declarations, then the struct in its namespace, with the
   *  namespace's and the struct's blocks closed as they are disposed. */
  method AssembleStructBody(x: CppSchema, n: StructNames, validation: CodeBuilder, constructors: CodeBuilder,
      nlohmann: CodeBuilder) returns (b: CodeBuilder)
    ensures fresh(b) && b.tabLevel == 0
    ensures b.lines == StructBodyText(x, n, validation.lines, constructors.lines, nlohmann.lines)
  {
    b := new CodeBuilder();
    AppendOpening(b, x, n);
    assert b.lines == NamespaceOpening(x) + ForwardLines(x, n) + ConversionLines(n) + StructOpening(x, n);
    AppendBlocks(b, x, n, validation, constructors, nlohmann);
  }

  /** The namespace's and the struct's blocks, closed as they are disposed. */
  method AppendBlocks(b: CodeBuilder, x: CppSchema, n: StructNames, validation: CodeBuilder,
      constructors: CodeBuilder, nlohmann: CodeBuilder)
    requires b.tabLevel == 0 && validation != b && constructors != b && nlohmann != b
    modifies b
    ensures b.tabLevel == 0
    ensures b.lines == old(b.lines) + Rebased(TypedefLines(x, n), 2) + KeyBlock(x.Properties())
      + FieldLines(x.Properties()) + Rebased(old(validation.lines), 2) + PublicRun(x.DoesRequireValidation())
      + Rebased(old(constructors.lines), 2) + Rebased(AccessorLines(x.Properties()), 2) + EqualityBlock(x.Properties())
      + Rebased(old(nlohmann.lines), 2) + ExtensionLines(x.extensions)
      + [CodeLine("}; // struct " + x.typename, 1)] + [CodeLine("} // namespace " + Interpolated(x.namespace), 0)]
  {
    var outer := b.NewCodeBlock();
    var inner := b.NewCodeBlock();
    AppendInterior(b, x, n, validation, constructors, nlohmann);
    CloseBlocks(b, inner, outer, x.typename, Interpolated(x.namespace));
  }

  /** Disposing the struct's block, closing the struct, then disposing the
   *  namespace's block and closing the namespace. */
  method CloseBlocks(b: CodeBuilder, inner: BuilderBlock, outer: BuilderBlock, typename: string, namespace: string)
    requires inner != outer && inner.Valid() && outer.Valid()
    requires inner.builder == b && outer.builder == b && b.tabLevel == 2
    modifies b, inner, outer
    ensures b.tabLevel == 0
    ensures b.lines == old(b.lines) + [CodeLine("}; // struct " + typename, 1)] + [CodeLine("} // namespace " + namespace, 0)]
  {
    inner.Dispose();
    b.Append("}; // struct " + typename, 0);
    outer.Dispose();
    b.Append("} // namespace " + namespace, 0);
  }

  /** MakeStructBody: the soft validation, the constructors and the
   *  conversions, in the order the struct's text builds them, then the
   *  struct around them. */
  method MakeStructBody(x: CppSchema, n: StructNames) returns (r: Result<CodeBuilder>)
    ensures r.Ok? <==> StructBodyLines(x, n).Ok?
    ensures r.Err? ==> StructBodyLines(x, n) == Err(r.failure)
    ensures r.Ok? ==> fresh(r.value) && r.value.tabLevel == 0 && r.value.lines == StructBodyLines(x, n).value
  {
    var validation := MakeNoexceptValidation(x);
    if validation.Err? {
      return Err(validation.failure);
    }
    var constructors := MakeConstructors(x);
    if constructors.Err? {
      return Err(constructors.failure);
    }
    var nlohmann := MakeNlohmannUtils(x);
    if nlohmann.Err? {
      return Err(nlohmann.failure);
    }
    var b := AssembleStructBody(x, n, validation.value, constructors.value, nlohmann.value);
    r := Ok(b);
  }

  /** Inherited properties get no field, no initializer and no accessors; the
   *  fields follow the own properties one for one, in order. */
  lemma InheritedOmitted(ps: seq<CppSchema>)
    ensures forall p :: p in Own(ps) <==> p in ps && !p.isPropertyInherited
    ensures |FieldLines(ps)| == |Own(ps)|
    ensures forall i :: 0 <= i < |Own(ps)| ==> [FieldLines(ps)[i]] == FieldLine(Own(ps)[i], i)
    ensures |FieldInitializers(ps)| == |Own(ps)|
    ensures forall i :: 0 <= i < |Own(ps)| ==> [FieldInitializers(ps)[i]] == Initializer(Own(ps)[i], i)
  {
    OwnSpec(ps);
    GatherSingles(Own(ps), FieldLine);
    GatherSingles(Own(ps), Initializer);
  }

  // ---------------------------------------------------------------------------
  // MakeNoexceptJson
  // ---------------------------------------------------------------------------

  /** `template <>` for a plain struct, its own signature for a template. */
  function SpecializationSignature(n: StructNames): string {
    if n.templateSignature.None? then "template <>" else n.templateSignature.value
  }

  function SerializerHeadLine(k: nat, n: StructNames): CodeLine {
    match k
      case 0 => CodeLine("namespace ropufu", 0)
      case 1 => CodeLine("{", 0)
      case 2 => CodeLine(SpecializationSignature(n), 1)
      case 3 => CodeLine("struct noexcept_json_serializer<" + n.qualifiedStructName + ">", 1)
      case 4 => CodeLine("{", 1)
      case 5 => CodeLine("using result_type = " + n.qualifiedStructName + ";", 2)
      case 6 => CodeLine("static bool try_get(const nlohmann::json& j, result_type& x) noexcept", 2)
      case _ => CodeLine("{", 2)
  }

  function SerializerHeadRun(n: StructNames): seq<CodeLine> {
    seq(8, k requires 0 <= k < 8 => SerializerHeadLine(k, n))
  }

  /** Reading a property: `kind` is "required" or "optional". */
  function ReadLine(kind: string, p: CppSchema): string {
    "if (!noexcept_json::" + kind + "(j, result_type::jstr_" + Method(p) + ", x." + Field(p) + ")) return false;"
  }

  function TryGetLines(ps: seq<CppSchema>, countRequired: nat): seq<CodeLine> {
    seq(|ps|, i requires 0 <= i < |ps| =>
      CodeLine(if i < countRequired then ReadLine("required", ps[i]) else ReadLine("optional", ps[i]), 3))
  }

  function SerializerTailLine(k: nat): CodeLine {
    match k
      case 0 => CodeLine("return true;", 3)
      case 1 => CodeLine("} // try_get(...)", 2)
      case 2 => CodeLine("}; // struct noexcept_json_serializer<...>", 1)
      case _ => CodeLine("} // namespace ropufu", 0)
  }

  function SerializerTailRun(): seq<CodeLine> {
    seq(4, k requires 0 <= k < 4 => SerializerTailLine(k))
  }

  const ErrorMessageCheck := CodeLine("if (x.error_message().has_value()) return false;", 3)

  function ValidityCheckLines(x: CppSchema): seq<CodeLine> {
    [CodeLine("", 3)] + (if x.DoesRequireValidation() then [ErrorMessageCheck] else [])
  }

  /** What MakeNoexceptJson builds: `try_get` reads every property, the
   *  required ones as required, and then rejects an invalid structure. */
  function NoexceptJsonLines(x: CppSchema, n: StructNames): seq<CodeLine> {
    SerializerHeadRun(n) + TryGetLines(x.Properties(), x.CountRequired()) + ValidityCheckLines(x)
    + SerializerTailRun()
  }

  method MakeNoexceptJson(x: CppSchema, n: StructNames) returns (b: CodeBuilder)
    ensures fresh(b) && b.tabLevel == 0 && b.lines == NoexceptJsonLines(x, n)
  {
    b := new CodeBuilder();
    AppendRun(b, SerializerHeadRun(n));
    assert b.lines == SerializerHeadRun(n);
    AppendRun(b, TryGetLines(x.Properties(), x.CountRequired()));
    AppendRun(b, ValidityCheckLines(x));
    AppendRun(b, SerializerTailRun());
  }

  /** `try_get` reads property i as required exactly when i is below the
   *  count of required properties, and checks `error_message` exactly when
   *  the struct validates itself. */
  lemma TryGetSpec(x: CppSchema, n: StructNames, i: nat)
    requires i < |x.Properties()|
    ensures var line := TryGetLines(x.Properties(), x.CountRequired())[i];
      line.tabOffset == 3
      && (line.code == ReadLine("required", x.Properties()[i]) <==> i < x.CountRequired())
      && (line.code == ReadLine("optional", x.Properties()[i]) <==> i >= x.CountRequired())
    ensures var lines := NoexceptJsonLines(x, n);
      var at := 8 + |x.Properties()| + 1;
      |lines| > at && (lines[at] == ErrorMessageCheck <==> x.DoesRequireValidation())
  {
    TryGetLineSpec(x.Properties(), x.CountRequired(), i);
    ValidityCheckSpec(x, n);
  }

  lemma TryGetLineSpec(ps: seq<CppSchema>, countRequired: nat, i: nat)
    requires i < |ps|
    ensures var line := TryGetLines(ps, countRequired)[i];
      line.tabOffset == 3
      && (line.code == ReadLine("required", ps[i]) <==> i < countRequired)
      && (line.code == ReadLine("optional", ps[i]) <==> i >= countRequired)
  {
    ReadKindsDiffer(ps[i]);
  }

  /** A required read and an optional read of the same property differ. */
  lemma ReadKindsDiffer(p: CppSchema)
    ensures ReadLine("required", p) != ReadLine("optional", p)
  {
    assert ReadLine("required", p)[20] == 'r';
    assert ReadLine("optional", p)[20] == 'o';
  }

  lemma ValidityCheckSpec(x: CppSchema, n: StructNames)
    ensures var lines := NoexceptJsonLines(x, n);
      var at := 8 + |x.Properties()| + 1;
      |lines| > at && (lines[at] == ErrorMessageCheck <==> x.DoesRequireValidation())
  {
    var lines := NoexceptJsonLines(x, n);
    var at := 8 + |x.Properties()| + 1;
    if !x.DoesRequireValidation() {
      assert lines[at] == SerializerTailLine(0);
    }
  }

  // ---------------------------------------------------------------------------
  // MakeHash
  // ---------------------------------------------------------------------------

  function HashHeadLine(k: nat, n: StructNames, count: nat): CodeLine {
    match k
      case 0 => CodeLine("namespace std", 0)
      case 1 => CodeLine("{", 0)
      case 2 => CodeLine(SpecializationSignature(n), 1)
      case 3 => CodeLine("struct hash<" + n.qualifiedStructName + ">", 1)
      case 4 => CodeLine("{", 1)
      case 5 => CodeLine("using argument_type = " + n.qualifiedStructName + ";", 2)
      case 6 => CodeLine("using result_type = std::size_t;", 2)
      case 7 => CodeLine("", 2)
      case 8 => CodeLine("result_type operator ()(const argument_type& x) const noexcept", 2)
      case 9 => CodeLine("{", 2)
      case 10 => CodeLine("result_type result = 0;", 3)
      case 11 => CodeLine("constexpr result_type total_width = sizeof(result_type);", 3)
      case 12 => CodeLine("constexpr result_type width = total_width / " + NatText(count) + ";", 3)
      case 13 => CodeLine("constexpr result_type shift = (width == 0 ? 1 : width);", 3)
      case _ => CodeLine("", 3)
  }

  function HashHeadRun(n: StructNames, count: nat): seq<CodeLine> {
    seq(15, k requires 0 <= k < 15 => HashHeadLine(k, n, count))
  }

  function HasherLines(ps: seq<CppSchema>): seq<CodeLine> {
    seq(|ps|, i requires 0 <= i < |ps| =>
      CodeLine("std::hash<typename argument_type::" + Method(ps[i]) + "_type> " + Method(ps[i]) + "_hasher {};", 3))
  }

  /** Field k is hashed and shifted by `(shift * k) % total_width`. */
  function CombineLines(ps: seq<CppSchema>): seq<CodeLine> {
    seq(|ps|, k requires 0 <= k < |ps| =>
      CodeLine("result ^= (" + Method(ps[k]) + "_hasher(x." + Field(ps[k]) + ") << ((shift * " + NatText(k)
        + ") % total_width));", 3))
  }

  function HashTailLine(k: nat): CodeLine {
    match k
      case 0 => CodeLine("", 3)
      case 1 => CodeLine("return result;", 3)
      case 2 => CodeLine("} // operator ()(...)", 2)
      case 3 => CodeLine("}; // struct hash<...>", 1)
      case _ => CodeLine("} // namespace std", 0)
  }

  function HashTailRun(): seq<CodeLine> {
    seq(5, k requires 0 <= k < 5 => HashTailLine(k))
  }

  /** What MakeHash builds: every field, inherited ones included, hashed and
   *  combined by exclusive or with its own shift. */
  function HashLines(x: CppSchema, n: StructNames): seq<CodeLine> {
    var ps := x.Properties();
    HashHeadRun(n, |ps|) + HasherLines(ps) + [CodeLine("", 3)] + CombineLines(ps) + HashTailRun()
  }

  method MakeHash(x: CppSchema, n: StructNames) returns (b: CodeBuilder)
    ensures fresh(b) && b.tabLevel == 0 && b.lines == HashLines(x, n)
  {
    var ps := x.Properties();
    b := new CodeBuilder();
    AppendRun(b, HashHeadRun(n, |ps|));
    AppendRun(b, HasherLines(ps));
    b.Append("", 3);
    AppendRun(b, CombineLines(ps));
    AppendRun(b, HashTailRun());
  }

  /** Every property is hashed and combined: field k's lines name its own
   *  hasher and its own index. */
  lemma HashSpec(x: CppSchema, n: StructNames, k: nat)
    requires k < |x.Properties()|
    ensures var lines := HashLines(x, n);
      var ps := x.Properties();
      |lines| == 15 + 2 * |ps| + 1 + 5
      && lines[15 + k].code == "std::hash<typename argument_type::" + Method(ps[k]) + "_type> " + Method(ps[k]) + "_hasher {};"
      && lines[15 + |ps| + 1 + k] == CombineLines(ps)[k]
  {
  }

  /** The shift of field k among `count` fields as the generated code computes
   *  it: `sizeof(std::size_t)` is 8, a count of bytes, used as a count of bits. */
  function ShiftAsWritten(count: nat, k: nat): nat
    requires count > 0
  {
    var width := 8 / count;
    ((if width == 0 then 1 else width) * k) % 8
  }

  /** As written, every shift stays below 8 bits, so the upper 56 bits of the
   *  hash never receive a shifted field; with 9 fields, fields 0 and 8 share
   *  a shift. */
  lemma ShiftAsWrittenCollides(count: nat, k: nat)
    requires count > 0
    ensures ShiftAsWritten(count, k) < 8
    ensures ShiftAsWritten(9, 0) == ShiftAsWritten(9, 8) == 0
  {
  }

  /** The shift spread over the 64 bits of the result. */
  function Shift(count: nat, k: nat): (r: nat)
    requires count > 0
    ensures r < 64
  {
    var width := 64 / count;
    ((if width == 0 then 1 else width) * k) % 64
  }

  lemma {:induction false} MulMonotonic(w: nat, p: nat, q: nat)
    requires p <= q
    ensures w * p <= w * q
    decreases q - p
  {
    if p < q {
      MulMonotonic(w, p, q - 1);
      assert w * q == w * (q - 1) + w;
    }
  }

  /** Spread over the bits of the result, the fields of a struct with at
   *  most 64 fields get pairwise distinct shifts. */
  lemma ShiftDistinct(count: nat, j: nat, k: nat)
    requires 0 < count <= 64 && j < k < count
    ensures Shift(count, j) != Shift(count, k)
  {
    var width := 64 / count;
    WidthBounds(count);
    MulMonotonic(width, j + 1, k);
    MulMonotonic(width, k + 1, count);
    MulSucc(width, j);
    MulSucc(width, k);
    SmallMod(width * j);
    SmallMod(width * k);
  }

  /** Each of at most 64 fields gets at least one bit, and together they fit
   *  in 64. */
  lemma WidthBounds(count: nat)
    requires 0 < count <= 64
    ensures 1 <= 64 / count && (64 / count) * count <= 64
  {
  }

  lemma MulSucc(w: nat, j: nat)
    ensures w * (j + 1) == w * j + w
  {
  }

  lemma SmallMod(x: nat)
    requires x < 64
    ensures x % 64 == x
  {
  }

  // ---------------------------------------------------------------------------
  // MakeInner
  // ---------------------------------------------------------------------------

  /** The pieces MakeInner yields, in order: the struct, its serializer and,
   *  unless the schema skips it, its hash. */
  function InnerLines(x: CppSchema, n: StructNames): Result<seq<seq<CodeLine>>> {
    var body := StructBodyLines(x, n);
    if body.Err? then Err(body.failure) else Ok(InnerPieces(x, n, body.value))
  }

  function InnerPieces(x: CppSchema, n: StructNames, body: seq<CodeLine>): seq<seq<CodeLine>> {
    if x.skipHash then [body, NoexceptJsonLines(x, n)] else [body, NoexceptJsonLines(x, n), HashLines(x, n)]
  }

  /** The serializer and the hash after the struct's own builder. */
  method MakePieces(x: CppSchema, n: StructNames, body: CodeBuilder) returns (r: seq<CodeBuilder>)
    ensures |r| == (if x.skipHash then 2 else 3) && r[0] == body && fresh(r[1])
    ensures !x.skipHash ==> fresh(r[2])
    ensures LinesOf(r) == InnerPieces(x, n, body.lines)
  {
    var json := MakeNoexceptJson(x, n);
    if x.skipHash {
      r := [body, json];
      assert LinesOf(r) == [body.lines, json.lines];
      return;
    }
    var hash := MakeHash(x, n);
    r := [body, json, hash];
    assert LinesOf(r) == [body.lines, json.lines, hash.lines];
  }

  method MakeInner(x: CppSchema, n: StructNames) returns (r: Result<seq<CodeBuilder>>)
    ensures r.Ok? <==> StructBodyLines(x, n).Ok?
    ensures r.Err? ==> StructBodyLines(x, n) == Err(r.failure)
    ensures r.Ok? ==> |r.value| == (if x.skipHash then 2 else 3) && fresh(r.value[0]) && fresh(r.value[1])
    ensures r.Ok? && !x.skipHash ==> |r.value| == 3 && fresh(r.value[2])
    ensures r.Ok? ==> LinesOf(r.value) == InnerLines(x, n).value
  {
    var body := MakeStructBody(x, n);
    if body.Err? {
      return Err(body.failure);
    }
    var pieces := MakePieces(x, n, body.value);
    r := Ok(pieces);
  }
}
