/** HppEnumGenerator: the header of a string schema whose permissible values
 *  are hard-coded, a C++ struct wrapping a one-byte discriminant (0 for no
 *  value, i + 1 for the i-th permissible value), its noexcept JSON serializer
 *  and its std::hash specialization. */
module HppEnumGenerator {
  import opened Errors
  import opened JsonModel
  import opened Extenders
  import opened CodeBuilder
  import opened ICppSchema

  /** No permissible value may be named like the struct's own typedef. */
  const ReservedNames: seq<string> := ["type"]

  /** The includes every enumeration header needs besides its own. */
  const MoreIncludes: seq<HppInclude> := [
    HppInclude(Some("<nlohmann/json.hpp>"), None),
    HppInclude(Some("<ropufu/noexcept_json.hpp>"), None),
    HppInclude(Some("<cstddef>"), Some("std::size_t, std::nullptr_t")),
    HppInclude(Some("<functional>"), Some("std::hash")),
    HppInclude(Some("<ostream>"), Some("std::ostream")),
    HppInclude(Some("<stdexcept>"), Some("std::runtime_error")),
    HppInclude(Some("<string_view>"), Some("std::string_view")),
    HppInclude(Some("<string>"), Some("std::string"))]

  // ---------------------------------------------------------------------------
  // The generated lines
  // ---------------------------------------------------------------------------

  /** The C++ literal of each permissible value. */
  function Codes(x: CppSchema): seq<string> {
    seq(|x.permissibleValueCodes|, i requires 0 <= i < |x.permissibleValueCodes| => Interpolated(x.permissibleValueCodes[i]))
  }

  /** The documentation line of the struct, when it has a description. */
  function DescriptionLines(x: CppSchema): seq<CodeLine> {
    if x.description.Some? then [CodeLine("/** " + x.description.value + " */", 1)] else []
  }

  // Every line below carries its absolute indentation level: the namespace's
  // block is level 1 and the struct's block level 2.

  /** The forward declarations and the opening of the struct. */
  function ForwardLine(k: nat, t: string): CodeLine {
    match k
      case 0 => CodeLine("struct " + t + ";", 1)
      case 1 => CodeLine("", 1)
      case 2 => CodeLine("void to_json(nlohmann::json& j, const " + t + "& x) noexcept;", 1)
      case 3 => CodeLine("void from_json(const nlohmann::json& j, " + t + "& x);", 1)
      case 4 => CodeLine("", 1)
      case 5 => CodeLine("struct " + t, 1)
      case _ => CodeLine("{", 1)
  }

  function ForwardRun(t: string): seq<CodeLine> {
    seq(7, k requires 0 <= k < 7 => ForwardLine(k, t))
  }

  /** The opening of the namespace, the struct's documentation and its
   *  forward declarations. */
  function OpeningLines(x: CppSchema): seq<CodeLine> {
    [CodeLine("namespace " + Interpolated(x.namespace), 0), CodeLine("{", 0)]
    + DescriptionLines(x) + ForwardRun(x.typename)
  }

  /** The struct's typedef, friends, discriminant and private constructor, up
   *  to the opening of `parse`. */
  function HeadLine(k: nat, t: string): CodeLine {
    match k
      case 0 => CodeLine("using type = " + t + ";", 2)
      case 1 => CodeLine("", 2)
      case 2 => CodeLine("friend ropufu::noexcept_json_serializer<type>;", 2)
      case 3 => CodeLine("friend std::hash<type>;", 2)
      case 4 => CodeLine("", 2)
      case 5 => CodeLine("private:", 1)
      case 6 => CodeLine("char m_value = 0;", 2)
      case 7 => CodeLine("", 2)
      case 8 => CodeLine("constexpr " + t + "(std::nullptr_t, char value) noexcept : m_value(value) { }", 2)
      case 9 => CodeLine("", 2)
      case 10 => CodeLine("constexpr void parse(std::string_view value) noexcept", 2)
      case _ => CodeLine("{", 2)
  }

  function HeadRun(t: string): seq<CodeLine> {
    seq(12, k requires 0 <= k < 12 => HeadLine(k, t))
  }

  /** The body of `parse`: the i-th value sets the discriminant to i + 1. */
  function ParseLines(codes: seq<string>): seq<CodeLine> {
    seq(|codes|, i requires 0 <= i < |codes| =>
      CodeLine("if (value == " + codes[i] + ") this->m_value = " + NatText(i + 1) + ";", 3))
  }

  function MidLine(k: nat): CodeLine {
    match k
      case 0 => CodeLine("} // parse(...)", 2)
      case 1 => CodeLine("", 2)
      case _ => CodeLine("public:", 1)
  }

  function MidRun(): seq<CodeLine> {
    seq(3, k requires 0 <= k < 3 => MidLine(k))
  }

  /** One static instance declared per permissible value, named after it. */
  function DeclarationLines(t: string, codes: seq<string>): seq<CodeLine> {
    seq(|codes|, i requires 0 <= i < |codes| => CodeLine("static const " + t + " " + SnakeCase(codes[i]) + ";", 2))
  }

  /** The public constructors and the opening of `to_string_view`. */
  function ViewLine(k: nat, t: string): CodeLine {
    match k
      case 0 => CodeLine("", 2)
      case 1 => CodeLine("constexpr " + t + "() noexcept { }", 2)
      case 2 => CodeLine("constexpr " + t + "(std::string_view value) noexcept { this->parse(value); }", 2)
      case 3 => CodeLine("constexpr " + t + "(const char* value) noexcept { this->parse(value); }", 2)
      case 4 => CodeLine(t + "(const std::string& value) noexcept { this->parse(value); }", 2)
      case 5 => CodeLine("", 2)
      case 6 => CodeLine("constexpr std::string_view to_string_view() const noexcept", 2)
      case 7 => CodeLine("{", 2)
      case 8 => CodeLine("switch (this->m_value)", 3)
      case _ => CodeLine("{", 3)
  }

  function ViewRun(t: string): seq<CodeLine> {
    seq(10, k requires 0 <= k < 10 => ViewLine(k, t))
  }

  /** The cases of `to_string_view`: discriminant i + 1 gives the i-th value. */
  function CaseLines(codes: seq<string>): seq<CodeLine> {
    seq(|codes|, i requires 0 <= i < |codes| => CodeLine("case " + NatText(i + 1) + ": return " + codes[i] + ";", 4))
  }

  /** The default case, the comparison and stream operators and the JSON
   *  conversions. */
  function TailLine(k: nat, t: string): CodeLine {
    match k
      case 0 => CodeLine("default: return \"??\";", 4)
      case 1 => CodeLine("} // switch (...)", 3)
      case 2 => CodeLine("} // to_string_view(...)", 2)
      case 3 => CodeLine("", 2)
      case 4 => CodeLine("/** Checks if this object is equivalent to \\param other. */", 2)
      case 5 => CodeLine("bool operator ==(const type& other) const noexcept", 2)
      case 6 => CodeLine("{", 2)
      case 7 => CodeLine("return this->m_value == other.m_value;", 3)
      case 8 => CodeLine("} // operator ==(...)", 2)
      case 9 => CodeLine("", 2)
      case 10 => CodeLine("/** Checks if this object is not equivalent to \\param other. */", 2)
      case 11 => CodeLine("bool operator !=(const type& other) const noexcept { return !this->operator ==(other); }", 2)
      case 12 => CodeLine("", 2)
      case 13 => CodeLine("friend std::ostream& operator <<(std::ostream& os, type self)", 2)
      case 14 => CodeLine("{", 2)
      case 15 => CodeLine("return os << self.to_string_view();", 3)
      case 16 => CodeLine("} // operator <<(...)", 2)
      case 17 => CodeLine("", 2)
      case 18 => CodeLine("friend void to_json(nlohmann::json& j, const type& x) noexcept", 2)
      case 19 => CodeLine("{", 2)
      case 20 => CodeLine("j = x.to_string_view();", 3)
      case 21 => CodeLine("} // to_json(...)", 2)
      case 22 => CodeLine("", 2)
      case 23 => CodeLine("friend void from_json(const nlohmann::json& j, type& x)", 2)
      case 24 => CodeLine("{", 2)
      case 25 => CodeLine("if (!ropufu::noexcept_json::try_get(j, x))", 3)
      case 26 => CodeLine("throw std::runtime_error(\"Parsing <" + t + "> failed: \" + j.dump());", 4)
      case _ => CodeLine("} // from_json(...)", 2)
  }

  function TailRun(t: string): seq<CodeLine> {
    seq(28, k requires 0 <= k < 28 => TailLine(k, t))
  }

  /** The static instances, the i-th holding discriminant i + 1. */
  function InstanceLines(t: string, codes: seq<string>): seq<CodeLine> {
    seq(|codes|, i requires 0 <= i < |codes| =>
      CodeLine("const " + t + " " + t + "::" + SnakeCase(codes[i]) + " = {nullptr, " + NatText(i + 1) + "};", 1))
  }

  /** What MakeStructBody builds. */
  function StructBodyLines(x: CppSchema): seq<CodeLine> {
    var t := x.typename;
    var codes := Codes(x);
    OpeningLines(x)
    + HeadRun(t) + ParseLines(codes) + MidRun() + DeclarationLines(t, codes)
    + ViewRun(t) + CaseLines(codes) + TailRun(t)
    + [CodeLine("}; // struct " + t, 1)] + [CodeLine("", 1)] + InstanceLines(t, codes)
    + [CodeLine("} // namespace " + Interpolated(x.namespace), 0)]
  }

  /** The fully qualified name of the struct. */
  function Qualified(x: CppSchema): string {
    Interpolated(x.namespace) + "::" + x.typename
  }

  /** What MakeNoexceptJson builds: the serializer specialization parses the
   *  JSON string and accepts it exactly when it named one of the values. */
  function NoexceptJsonLine(k: nat, x: CppSchema): CodeLine {
    match k
      case 0 => CodeLine("namespace ropufu", 0)
      case 1 => CodeLine("{", 0)
      case 2 => CodeLine("template <>", 1)
      case 3 => CodeLine("struct noexcept_json_serializer<" + Qualified(x) + ">", 1)
      case 4 => CodeLine("{", 1)
      case 5 => CodeLine("using result_type = " + Qualified(x) + ";", 2)
      case 6 => CodeLine("static bool try_get(const nlohmann::json& j, result_type& x) noexcept", 2)
      case 7 => CodeLine("{", 2)
      case 8 => CodeLine("std::string value {};", 3)
      case 9 => CodeLine("if (!noexcept_json::try_get(j, value)) return false;", 3)
      case 10 => CodeLine("x.parse(value);", 3)
      case 11 => CodeLine("return x.m_value != 0;", 3)
      case 12 => CodeLine("} // try_get(...)", 2)
      case 13 => CodeLine("}; // struct noexcept_json_serializer<...>", 1)
      case _ => CodeLine("} // namespace ropufu", 0)
  }

  function NoexceptJsonLines(x: CppSchema): seq<CodeLine> {
    seq(15, k requires 0 <= k < 15 => NoexceptJsonLine(k, x))
  }

  /** What MakeHash builds: the hash of the struct is the hash of its
   *  discriminant. */
  function HashLine(k: nat, x: CppSchema): CodeLine {
    match k
      case 0 => CodeLine("namespace std", 0)
      case 1 => CodeLine("{", 0)
      case 2 => CodeLine("template <>", 1)
      case 3 => CodeLine("struct hash<" + Qualified(x) + ">", 1)
      case 4 => CodeLine("{", 1)
      case 5 => CodeLine("using argument_type = " + Qualified(x) + ";", 2)
      case 6 => CodeLine("using result_type = std::size_t;", 2)
      case 7 => CodeLine("", 2)
      case 8 => CodeLine("result_type operator ()(const argument_type& x) const noexcept", 2)
      case 9 => CodeLine("{", 2)
      case 10 => CodeLine("std::hash<char> hasher {};", 3)
      case 11 => CodeLine("return hasher(x.m_value);", 3)
      case 12 => CodeLine("} // operator ()(...)", 2)
      case 13 => CodeLine("}; // struct hash<...>", 1)
      case _ => CodeLine("} // namespace std", 0)
  }

  function HashLines(x: CppSchema): seq<CodeLine> {
    seq(15, k requires 0 <= k < 15 => HashLine(k, x))
  }

  // ---------------------------------------------------------------------------
  // The builders
  // ---------------------------------------------------------------------------

  /** MakeStructBody. */
  method MakeStructBody(x: CppSchema) returns (b: CodeBuilder)
    ensures fresh(b) && b.tabLevel == 0 && b.lines == StructBodyLines(x)
  {
    var t := x.typename;
    var codes := Codes(x);
    b := new CodeBuilder();
    var outer := AppendOpening(b, x);
    var inner := b.NewCodeBlock();
    AppendStruct(b, t, codes);
    inner.Dispose();
    b.Append("}; // struct " + t, 0);
    b.AppendEmpty();
    AppendRun(b, InstanceLines(t, codes));
    outer.Dispose();
    b.Append("} // namespace " + Interpolated(x.namespace), 0);
  }

  /** The opening lines, leaving the namespace's block open. */
  method AppendOpening(b: CodeBuilder, x: CppSchema) returns (outer: BuilderBlock)
    requires b.lines == [] && b.tabLevel == 0
    modifies b
    ensures fresh(outer) && outer.Valid() && outer.builder == b && !outer.disposedValue
    ensures b.lines == OpeningLines(x) && b.tabLevel == 1
  {
    b.Append("namespace " + Interpolated(x.namespace), 0);
    b.Append("{", 0);
    outer := b.NewCodeBlock();
    if x.description.Some? {
      b.Append("/** " + x.description.value + " */", 0);
    }
    AppendRun(b, ForwardRun(x.typename));
  }

  /** The struct's members, with the three loops over the values. */
  method AppendStruct(b: CodeBuilder, t: string, codes: seq<string>)
    modifies b
    ensures b.tabLevel == old(b.tabLevel)
    ensures b.lines == old(b.lines)
      + HeadRun(t) + ParseLines(codes) + MidRun() + DeclarationLines(t, codes)
      + ViewRun(t) + CaseLines(codes) + TailRun(t)
  {
    AppendRun(b, HeadRun(t));
    AppendRun(b, ParseLines(codes));
    AppendRun(b, MidRun());
    AppendRun(b, DeclarationLines(t, codes));
    AppendRun(b, ViewRun(t));
    AppendRun(b, CaseLines(codes));
    AppendRun(b, TailRun(t));
  }

  /** MakeNoexceptJson. */
  method MakeNoexceptJson(x: CppSchema) returns (b: CodeBuilder)
    ensures fresh(b) && b.tabLevel == 0 && b.lines == NoexceptJsonLines(x)
  {
    b := new CodeBuilder();
    AppendRun(b, NoexceptJsonLines(x));
  }

  /** MakeHash. */
  method MakeHash(x: CppSchema) returns (b: CodeBuilder)
    ensures fresh(b) && b.tabLevel == 0 && b.lines == HashLines(x)
  {
    b := new CodeBuilder();
    AppendRun(b, HashLines(x));
  }

  /** The pieces MakeInner yields, in order. */
  function InnerLines(x: CppSchema): seq<seq<CodeLine>> {
    [StructBodyLines(x), NoexceptJsonLines(x), HashLines(x)]
  }

  /** MakeInner: the struct, its serializer, its hash. */
  method MakeInner(x: CppSchema) returns (r: seq<CodeBuilder>)
    ensures |r| == 3 && fresh(r[0]) && fresh(r[1]) && fresh(r[2])
    ensures LinesOf(r) == InnerLines(x)
  {
    var body := MakeStructBody(x);
    var json := MakeNoexceptJson(x);
    var hash := MakeHash(x);
    r := [body, json, hash];
  }

  // ---------------------------------------------------------------------------
  // What the generated struct does
  // ---------------------------------------------------------------------------

  // The values below are the strings the permissible value codes denote, in
  // the order of the codes.

  /** The discriminant `parse` leaves in a value that held `prior`: the
   *  generated comparisons run in order without an early exit, so the last
   *  value equal to the text wins, and `prior` stays when none is. */
  function ParseInto(values: seq<string>, text: string, prior: nat): nat {
    if values == [] then prior
    else if values[|values| - 1] == text then |values|
    else ParseInto(values[..|values| - 1], text, prior)
  }

  /** The discriminant of a value constructed from a string. */
  function Discriminant(values: seq<string>, text: string): nat {
    ParseInto(values, text, 0)
  }

  /** `to_string_view`: discriminant i + 1 gives the i-th value, any other "??". */
  function View(values: seq<string>, d: nat): string {
    if 1 <= d <= |values| then values[d - 1] else "??"
  }

  /** `parse` finds the last value equal to the text and otherwise keeps the
   *  discriminant it had. */
  lemma {:induction false} ParseIntoSpec(values: seq<string>, text: string, prior: nat)
    ensures text !in values ==> ParseInto(values, text, prior) == prior
    ensures text in values ==>
      1 <= ParseInto(values, text, prior) <= |values|
      && values[ParseInto(values, text, prior) - 1] == text
      && forall j :: ParseInto(values, text, prior) <= j < |values| ==> values[j] != text
  {
    if values != [] {
      var init := values[..|values| - 1];
      ParseIntoSpec(init, text, prior);
      assert values == init + [values[|values| - 1]];
    }
  }

  /** With distinct values, parsing the i-th value gives discriminant i + 1,
   *  which `to_string_view` maps back to the i-th value. */
  lemma RoundTrip(values: seq<string>, i: nat)
    requires forall j, k :: 0 <= j < k < |values| ==> values[j] != values[k]
    requires i < |values|
    ensures Discriminant(values, values[i]) == i + 1
    ensures View(values, Discriminant(values, values[i])) == values[i]
  {
    ParseIntoSpec(values, values[i], 0);
  }

  /** Without an early exit a repeated value is parsed to its last position. */
  lemma LastMatchWins()
    ensures Discriminant(["a", "a"], "a") == 2
  {
  }

  /** The generated serializer's `try_get(j, x)`: parse into `x` as it is and
   *  succeed when the discriminant is not 0. */
  predicate TryGetAsWritten(values: seq<string>, text: string, prior: nat) {
    ParseInto(values, text, prior) != 0
  }

  /** As generated, `try_get` also succeeds on a text that is no value when
   *  `x` already held one, leaving `x` unchanged. */
  lemma {:induction false} TryGetAsWrittenSpec(values: seq<string>, text: string, prior: nat)
    ensures TryGetAsWritten(values, text, prior) <==> text in values || prior != 0
  {
    ParseIntoSpec(values, text, prior);
  }

  lemma StaleTryGet()
    ensures "blue" !in ["red"] && TryGetAsWritten(["red"], "blue", 1)
  {
  }

  /** `try_get` as intended: parse from the default discriminant, so that it
   *  succeeds exactly on the values whatever `x` held. */
  predicate TryGet(values: seq<string>, text: string) {
    Discriminant(values, text) != 0
  }

  lemma {:induction false} TryGetSpec(values: seq<string>, text: string)
    ensures TryGet(values, text) <==> text in values
    ensures TryGet(values, text) ==> View(values, Discriminant(values, text)) == text
  {
    ParseIntoSpec(values, text, 0);
  }

  /** The generated struct agrees with its lines: the i-th parse line
   *  compares with the i-th literal and assigns i + 1, the case for i + 1
   *  returns the same literal, and the i-th static instance holds i + 1. */
  lemma GeneratedDiscriminants(x: CppSchema, i: nat)
    requires i < |x.permissibleValueCodes|
    ensures var codes := Codes(x);
      var t := x.typename;
      |ParseLines(codes)| == |CaseLines(codes)| == |InstanceLines(t, codes)| == |DeclarationLines(t, codes)| == |codes|
      && ParseLines(codes)[i].code == "if (value == " + codes[i] + ") this->m_value = " + NatText(i + 1) + ";"
      && CaseLines(codes)[i].code == "case " + NatText(i + 1) + ": return " + codes[i] + ";"
      && InstanceLines(t, codes)[i].code == "const " + t + " " + t + "::" + SnakeCase(codes[i]) + " = {nullptr, " + NatText(i + 1) + "};"
      && DeclarationLines(t, codes)[i].code == "static const " + t + " " + SnakeCase(codes[i]) + ";"
      && DigitsValue(NatText(i + 1)) == i + 1
  {
    NatTextRoundTrip(i + 1);
  }
}
