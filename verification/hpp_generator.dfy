/** HppGenerator: what every generated header shares. It validates the schema,
 *  generates the nested definitions first, assembles the sorted and
 *  deduplicated include list in two blocks, and wraps everything in an
 *  include guard under a banner. The struct and enum generators supply the
 *  reserved names, the extra includes and the node's own blocks. */
module HppGenerator {
  import opened Errors
  import opened JsonModel
  import opened Extenders
  import opened CodeBuilder
  import opened ICppSchema
  import CppSchemaBase
  import CppObjectSchema
  import HppStructGenerator
  import HppEnumGenerator

  // ---------------------------------------------------------------------------
  // The include set
  // ---------------------------------------------------------------------------

  /** Includes are ordered and deduplicated by their header alone. */
  function Key(x: HppInclude): string {
    Interpolated(x.header)
  }

  /** Ordinal order on text: `a` sorts strictly before `b`. */
  predicate Precedes(a: string, b: string)
    decreases |a|
  {
    if a == [] then b != []
    else if b == [] then false
    else if a[0] != b[0] then a[0] < b[0]
    else Precedes(a[1..], b[1..])
  }

  lemma {:induction false} PrecedesIrreflexive(a: string)
    ensures !Precedes(a, a)
    decreases |a|
  {
    if a != [] {
      PrecedesIrreflexive(a[1..]);
    }
  }

  lemma {:induction false} PrecedesTransitive(a: string, b: string, c: string)
    requires Precedes(a, b) && Precedes(b, c)
    ensures Precedes(a, c)
    decreases |a|
  {
    if a != [] && b != [] && c != [] && a[0] == b[0] && b[0] == c[0] {
      PrecedesTransitive(a[1..], b[1..], c[1..]);
    }
  }

  lemma {:induction false} PrecedesTotal(a: string, b: string)
    ensures a == b || Precedes(a, b) || Precedes(b, a)
    decreases |a|
  {
    if a != [] && b != [] && a[0] == b[0] {
      PrecedesTotal(a[1..], b[1..]);
      if a[1..] == b[1..] {
        assert a == [a[0]] + a[1..] && b == [b[0]] + b[1..];
      }
    }
  }

  /** Ordinal order is a strict total order on texts. */
  lemma PrecedesOrder()
    ensures forall a: string :: !Precedes(a, a)
    ensures forall a: string, b: string, c: string :: Precedes(a, b) && Precedes(b, c) ==> Precedes(a, c)
    ensures forall a: string, b: string :: a == b || Precedes(a, b) || Precedes(b, a)
  {
    forall a: string {
      PrecedesIrreflexive(a);
    }
    forall a: string, b: string, c: string | Precedes(a, b) && Precedes(b, c) {
      PrecedesTransitive(a, b, c);
    }
    forall a: string, b: string {
      PrecedesTotal(a, b);
    }
  }

  /** A SortedSet's contents: strictly ascending headers, so no header twice. */
  predicate SortedByHeader(s: seq<HppInclude>) {
    forall i, j :: 0 <= i < j < |s| ==> Precedes(Key(s[i]), Key(s[j]))
  }

  predicate HasKey(s: seq<HppInclude>, k: string) {
    exists y :: y in s && Key(y) == k
  }

  /** SortedSet.Add: the include takes its place by header, unless an include
   *  with the same header is already there, which is kept. */
  function Insert(s: seq<HppInclude>, x: HppInclude): seq<HppInclude> {
    if s == [] then [x]
    else if Key(x) == Key(s[0]) then s
    else if Precedes(Key(x), Key(s[0])) then [x] + s
    else [s[0]] + Insert(s[1..], x)
  }

  /** SortedSet.UnionWith: each include added in turn. */
  function UnionWith(s: seq<HppInclude>, xs: seq<HppInclude>): seq<HppInclude>
    decreases |xs|
  {
    if xs == [] then s else UnionWith(Insert(s, xs[0]), xs[1..])
  }

  /** The i-th include is the first one with its header. */
  predicate FirstWithKey(xs: seq<HppInclude>, i: nat)
    requires i < |xs|
  {
    forall j :: 0 <= j < i ==> Key(xs[j]) != Key(xs[i])
  }

  /** Adding one include keeps the set sorted, and adds that include exactly
   *  when its header is new. */
  lemma {:induction false} InsertSpec(s: seq<HppInclude>, x: HppInclude)
    requires SortedByHeader(s)
    ensures SortedByHeader(Insert(s, x))
    ensures forall y :: y in Insert(s, x) <==> y in s || (y == x && !HasKey(s, Key(x)))
  {
    PrecedesOrder();
    if s == [] {
    } else if Key(x) == Key(s[0]) {
      assert s[0] in s;
    } else if Precedes(Key(x), Key(s[0])) {
      var r := [x] + s;
      forall i, j | 0 <= i < j < |r|
        ensures Precedes(Key(r[i]), Key(r[j]))
      {
        if i == 0 && j > 1 {
          assert r[j] == s[j - 1];
        }
      }
      forall y | y in s
        ensures Key(y) != Key(x)
      {
        var j :| 0 <= j < |s| && s[j] == y;
        if j > 0 {
          assert Precedes(Key(s[0]), Key(s[j]));
        }
      }
    } else {
      var tail := s[1..];
      InsertSpec(tail, x);
      var r := [s[0]] + Insert(tail, x);
      forall i, j | 0 <= i < j < |r|
        ensures Precedes(Key(r[i]), Key(r[j]))
      {
        if i == 0 {
          var y := r[j];
          assert y in Insert(tail, x);
          if y in tail {
            var m :| 0 <= m < |tail| && tail[m] == y;
            assert s[m + 1] == y;
          }
        } else {
          assert r[i] == Insert(tail, x)[i - 1] && r[j] == Insert(tail, x)[j - 1];
        }
      }
      assert s == [s[0]] + tail;
      assert HasKey(s, Key(x)) <==> HasKey(tail, Key(x));
    }
  }

  /** The headers of an include set after one more include: its own added. */
  lemma InsertKeys(s: seq<HppInclude>, x: HppInclude, k: string)
    requires SortedByHeader(s)
    ensures HasKey(Insert(s, x), k) <==> HasKey(s, k) || Key(x) == k
  {
    InsertSpec(s, x);
    if HasKey(s, k) {
      var y :| y in s && Key(y) == k;
      assert y in Insert(s, x);
    } else if Key(x) == k {
      assert x in Insert(s, x);
    }
  }

  /** UnionWith keeps the set sorted and adds exactly the first include of
   *  each header not there yet: a later include with a known header is
   *  dropped, an earlier one kept. */
  lemma {:induction false} UnionWithSpec(s: seq<HppInclude>, xs: seq<HppInclude>)
    requires SortedByHeader(s)
    ensures SortedByHeader(UnionWith(s, xs))
    ensures forall y :: y in UnionWith(s, xs) <==>
      y in s || exists i :: 0 <= i < |xs| && xs[i] == y && !HasKey(s, Key(y)) && FirstWithKey(xs, i)
    decreases |xs|
  {
    if xs != [] {
      var x := xs[0];
      var s' := Insert(s, x);
      var rest := xs[1..];
      InsertSpec(s, x);
      UnionWithSpec(s', rest);
      forall y
        ensures y in UnionWith(s, xs) <==>
          y in s || exists i :: 0 <= i < |xs| && xs[i] == y && !HasKey(s, Key(y)) && FirstWithKey(xs, i)
      {
        InsertKeys(s, x, Key(y));
        if y in UnionWith(s, xs) {
          if y in s' {
            if y !in s {
              assert xs[0] == y && FirstWithKey(xs, 0);
            }
          } else {
            var i :| 0 <= i < |rest| && rest[i] == y && !HasKey(s', Key(y)) && FirstWithKey(rest, i);
            assert xs[i + 1] == y;
            forall j | 0 <= j < i + 1
              ensures Key(xs[j]) != Key(xs[i + 1])
            {
              if j > 0 {
                assert xs[j] == rest[j - 1];
              }
            }
          }
        }
        if exists i :: 0 <= i < |xs| && xs[i] == y && !HasKey(s, Key(y)) && FirstWithKey(xs, i) {
          var i :| 0 <= i < |xs| && xs[i] == y && !HasKey(s, Key(y)) && FirstWithKey(xs, i);
          if i == 0 {
            assert y in s';
          } else {
            assert rest[i - 1] == y && Key(x) != Key(y);
            assert FirstWithKey(rest, i - 1) by {
              forall j | 0 <= j < i - 1
                ensures Key(rest[j]) != Key(rest[i - 1])
              {
                assert rest[j] == xs[j + 1];
              }
            }
          }
        }
      }
    }
  }

  /** The include set of a generator: the schema's includes, then the extra ones. */
  function IncludeSet(includes: seq<HppInclude>, more: seq<HppInclude>): seq<HppInclude> {
    UnionWith(UnionWith([], includes), more)
  }

  lemma {:induction false} UnionWithConcat(s: seq<HppInclude>, xs: seq<HppInclude>, ys: seq<HppInclude>)
    ensures UnionWith(UnionWith(s, xs), ys) == UnionWith(s, xs + ys)
    decreases |xs|
  {
    if xs != [] {
      assert (xs + ys)[0] == xs[0] && (xs + ys)[1..] == xs[1..] + ys;
      UnionWithConcat(Insert(s, xs[0]), xs[1..], ys);
    } else {
      assert xs + ys == ys;
    }
  }

  /** The include set is sorted by header and holds, for each header, the
   *  first include that names it, the schema's own before the extra ones. */
  lemma IncludeSetSpec(includes: seq<HppInclude>, more: seq<HppInclude>)
    ensures SortedByHeader(IncludeSet(includes, more))
    ensures forall y :: y in IncludeSet(includes, more) <==>
      exists i :: 0 <= i < |includes + more| && (includes + more)[i] == y && FirstWithKey(includes + more, i)
  {
    UnionWithConcat([], includes, more);
    UnionWithSpec([], includes + more);
  }

  // ---------------------------------------------------------------------------
  // The include lines
  // ---------------------------------------------------------------------------

  /** String.IsNullOrWhiteSpace on a comment. */
  predicate Commented(x: HppInclude) {
    x.comment.Some? && !AllWhiteSpace(x.comment.value)
  }

  /** The first block: each include without a comment, in order. */
  function PlainLines(xs: seq<HppInclude>): seq<CodeLine> {
    if xs == [] then []
    else
      var last := xs[|xs| - 1];
      PlainLines(xs[..|xs| - 1]) + (if Commented(last) then [] else [CodeLine("#include " + Key(last), 0)])
  }

  /** The widest header among the commented includes (0 when there is none). */
  function MaxWidth(xs: seq<HppInclude>): nat {
    if xs == [] then 0
    else
      var last := xs[|xs| - 1];
      var m := MaxWidth(xs[..|xs| - 1]);
      if Commented(last) && |Key(last)| > m then |Key(last)| else m
  }

  /** The second block: each commented include, its header padded to `width`. */
  function CommentedLines(xs: seq<HppInclude>, width: nat): seq<CodeLine>
  {
    if xs == [] then []
    else
      var last := xs[|xs| - 1];
      CommentedLines(xs[..|xs| - 1], width)
      + (if Commented(last) then [CommentedLine(last, width)] else [])
  }

  function CommentedLine(x: HppInclude, width: nat): CodeLine
    requires x.comment.Some?
  {
    CodeLine("#include " + PadRight(Key(x), width) + " // " + x.comment.value, 0)
  }

  /** What MakeIncludes builds: the first block, then, when some commented
   *  include has a header, a blank line if the first block is not empty and
   *  the second block. */
  function IncludeLines(xs: seq<HppInclude>): seq<CodeLine>
  {
    var plain := PlainLines(xs);
    var width := MaxWidth(xs);
    if width == 0 then plain
    else plain + (if |plain| > 0 then [CodeLine("", 0)] else []) + CommentedLines(xs, width)
  }

  function CountPlain(xs: seq<HppInclude>): nat {
    if xs == [] then 0 else CountPlain(xs[..|xs| - 1]) + (if Commented(xs[|xs| - 1]) then 0 else 1)
  }

  /** The widest commented header bounds every commented header, and is one
   *  of them when it is not 0. */
  lemma {:induction false} MaxWidthSpec(xs: seq<HppInclude>)
    ensures forall i :: 0 <= i < |xs| && Commented(xs[i]) ==> |Key(xs[i])| <= MaxWidth(xs)
    ensures MaxWidth(xs) > 0 ==> exists i :: 0 <= i < |xs| && Commented(xs[i]) && |Key(xs[i])| == MaxWidth(xs)
  {
    if xs != [] {
      var init := xs[..|xs| - 1];
      MaxWidthSpec(init);
      forall i | 0 <= i < |init|
        ensures xs[i] == init[i]
      {
      }
      if MaxWidth(xs) > 0 && MaxWidth(xs) == MaxWidth(init) {
        var i :| 0 <= i < |init| && Commented(init[i]) && |Key(init[i])| == MaxWidth(init);
        assert xs[i] == init[i];
      }
    }
  }

  /** Every include lands in exactly one block: the first block has one line
   *  per include without a comment, the second one per include with one. */
  lemma {:induction false} BlockSizes(xs: seq<HppInclude>, width: nat)
    ensures |PlainLines(xs)| == CountPlain(xs)
    ensures |CommentedLines(xs, width)| == |xs| - CountPlain(xs)
    ensures CountPlain(xs) <= |xs|
  {
    if xs != [] {
      BlockSizes(xs[..|xs| - 1], width);
    }
  }

  /** With every header non-empty, no commented include is lost: the blank line
   *  appears exactly when both blocks have lines, and every include has one line. */
  lemma IncludeLinesSpec(xs: seq<HppInclude>)
    requires forall i :: 0 <= i < |xs| ==> xs[i].header.Some? && |xs[i].header.value| > 0
    ensures var both := 0 < CountPlain(xs) < |xs|;
      IncludeLines(xs) == PlainLines(xs) + (if both then [CodeLine("", 0)] else []) + CommentedLines(xs, MaxWidth(xs))
    ensures |IncludeLines(xs)| == |xs| + (if 0 < CountPlain(xs) < |xs| then 1 else 0)
  {
    MaxWidthSpec(xs);
    BlockSizes(xs, MaxWidth(xs));
    if MaxWidth(xs) == 0 {
      if CountPlain(xs) < |xs| {
        NoCommentedIfNarrow(xs);
      }
      assert CommentedLines(xs, 0) == [];
    }
  }

  lemma {:induction false} NoCommentedIfNarrow(xs: seq<HppInclude>)
    requires forall i :: 0 <= i < |xs| ==> xs[i].header.Some? && |xs[i].header.value| > 0
    requires MaxWidth(xs) == 0
    ensures CountPlain(xs) == |xs|
  {
    if xs != [] {
      var init := xs[..|xs| - 1];
      assert forall i :: 0 <= i < |init| ==> init[i] == xs[i];
      NoCommentedIfNarrow(init);
    }
  }

  /** The comments of the second block all start in the same column: after
   *  "#include ", the widest header and one space. */
  lemma {:induction false} CommentsAligned(xs: seq<HppInclude>, width: nat)
    requires forall i :: 0 <= i < |xs| && Commented(xs[i]) ==> |Key(xs[i])| <= width
    ensures forall line :: line in CommentedLines(xs, width) ==>
      |line.code| >= 13 + width && line.code[9 + width..13 + width] == " // "
  {
    if xs != [] {
      var init := xs[..|xs| - 1];
      assert forall i :: 0 <= i < |init| ==> init[i] == xs[i];
      CommentsAligned(init, width);
      var last := xs[|xs| - 1];
      if Commented(last) {
        var code := CommentedLine(last, width).code;
        var padded := PadRight(Key(last), width);
        assert |padded| == width;
        assert code == ("#include " + padded + " // ") + last.comment.value;
        assert code[9 + width..13 + width] == " // ";
      }
    }
  }

  // ---------------------------------------------------------------------------
  // MakeIncludes
  // ---------------------------------------------------------------------------

  /** The extra includes of the node's generator (MoreIncludes). */
  function MoreIncludes(x: CppSchema): seq<HppInclude> {
    if x.kind == ObjectKind then HppStructGenerator.MoreIncludes(x) else HppEnumGenerator.MoreIncludes
  }

  /** Every commented include has a header, so padding it does not dereference
   *  a null header. */
  predicate CommentedHeaders(xs: seq<HppInclude>) {
    forall i :: 0 <= i < |xs| && Commented(xs[i]) ==> xs[i].header.Some?
  }

  /** MakeIncludes fails exactly when a second block is written and one of its
   *  includes has no header. */
  function IncludesResult(xs: seq<HppInclude>): Result<seq<CodeLine>> {
    if MaxWidth(xs) > 0 && !CommentedHeaders(xs) then Err(NullReference) else Ok(IncludeLines(xs))
  }

  /** MakeIncludes: the include set, the includes without a comment first,
   *  then, padded to the widest commented header, those with one. */
  method MakeIncludes(x: CppSchema) returns (r: Result<CodeBuilder>)
    ensures r.Ok? <==> IncludesResult(IncludeSet(x.includes, MoreIncludes(x))).Ok?
    ensures r.Err? ==> r.failure == NullReference
    ensures r.Ok? ==> fresh(r.value) && r.value.tabLevel == 0
    ensures r.Ok? ==> r.value.lines == IncludeLines(IncludeSet(x.includes, MoreIncludes(x)))
  {
    var includes := IncludeSet(x.includes, MoreIncludes(x));
    var b := new CodeBuilder();
    var done := AppendIncludes(b, includes);
    if done.Err? {
      return Err(done.failure);
    }
    r := Ok(b);
  }

  /** The two blocks of MakeIncludes for an already ordered include set. */
  method AppendIncludes(b: CodeBuilder, includes: seq<HppInclude>) returns (r: Result<()>)
    requires b.lines == [] && b.tabLevel == 0
    modifies b
    ensures r.Ok? <==> IncludesResult(includes).Ok?
    ensures r.Err? ==> r.failure == NullReference
    ensures r.Ok? ==> b.tabLevel == 0 && b.lines == IncludeLines(includes)
  {
    var countNoComment, maxWidth := AppendPlain(b, includes);
    r := Ok(());
    if maxWidth > 0 {
      if countNoComment > 0 {
        b.AppendEmpty();
      }
      r := AppendCommented(b, includes, maxWidth);
    }
  }

  /** First block: the includes without a comment, measuring the others. */
  method AppendPlain(b: CodeBuilder, includes: seq<HppInclude>) returns (countNoComment: nat, maxWidth: nat)
    requires b.lines == [] && b.tabLevel == 0
    modifies b
    ensures b.tabLevel == 0 && b.lines == PlainLines(includes)
    ensures countNoComment == |b.lines| && maxWidth == MaxWidth(includes)
  {
    countNoComment := 0;
    maxWidth := 0;
    var k := 0;
    while k < |includes|
      invariant 0 <= k <= |includes| && b.tabLevel == 0
      invariant b.lines == PlainLines(includes[..k]) && countNoComment == |b.lines|
      invariant maxWidth == MaxWidth(includes[..k])
    {
      assert includes[..k + 1][..k] == includes[..k];
      var y := includes[k];
      if Commented(y) {
        if |Key(y)| > maxWidth {
          maxWidth := |Key(y)|;
        }
      } else {
        b.Append("#include " + Key(y), 0);
        countNoComment := countNoComment + 1;
      }
      k := k + 1;
    }
    assert includes[..k] == includes;
  }

  /** Second block: the commented includes, headers padded to the width; a
   *  commented include without a header throws. */
  method AppendCommented(b: CodeBuilder, includes: seq<HppInclude>, width: nat) returns (r: Result<()>)
    requires b.tabLevel == 0
    modifies b
    ensures r.Ok? <==> CommentedHeaders(includes)
    ensures r.Err? ==> r.failure == NullReference
    ensures r.Ok? ==> b.tabLevel == 0 && b.lines == old(b.lines) + CommentedLines(includes, width)
  {
    var k := 0;
    while k < |includes|
      invariant 0 <= k <= |includes| && b.tabLevel == 0
      invariant CommentedHeaders(includes[..k])
      invariant b.lines == old(b.lines) + CommentedLines(includes[..k], width)
    {
      assert includes[..k + 1][..k] == includes[..k];
      var y := includes[k];
      if Commented(y) {
        if y.header.None? {
          return Err(NullReference);
        }
        b.Append("#include " + PadRight(Key(y), width) + " // " + y.comment.value, 0);
      }
      assert includes[..k + 1][k] == y;
      k := k + 1;
    }
    assert includes[..k] == includes;
    r := Ok(());
  }

  // ---------------------------------------------------------------------------
  // Construction and Make
  // ---------------------------------------------------------------------------

  /** HppGeneratorFactory.MakeGenerator: a struct generator for an object
   *  schema, an enum generator for a string schema. */
  predicate Supported(x: CppSchema) {
    x.kind == ObjectKind || x.kind == StringKind
  }

  /** The nested definitions the generator walks: an object's own nested
   *  object schemas, the common definitions otherwise. */
  function Definitions(x: CppSchema): seq<CppSchema> {
    if x.kind == ObjectKind then x.ObjectDefinitions() else x.definitions
  }

  /** Invalidate with the generator's reserved names: the object checks for a
   *  struct, the common checks for an enum. */
  function Checked(x: CppSchema): Result<seq<string>> {
    if x.kind == ObjectKind then
      if CppObjectSchema.ObjectValid(x) then Ok(CppObjectSchema.ObjectWarnings(x)) else Err(SchemaError)
    else CppSchemaBase.InvalidateResult(x, HppEnumGenerator.ReservedNames)
  }

  /** The constructor's `Invalidate(this.ReservedNames, out warnings)` as
   *  written. `HppGenerator<T>` is generic with `T : ICppSchema`, so the call
   *  is resolved once, against the interface, and the overloads of
   *  `CppObjectSchema` take no part. The interface as it stands declares no
   *  `Invalidate`; the model takes the fuller interface the call needs, whose
   *  two-argument `Invalidate` only `CppSchemaBase.Invalidate` implements,
   *  whatever the kind. */
  function CheckedAsWritten(x: CppSchema): Result<seq<string>> {
    CppSchemaBase.InvalidateResult(x, HppStructGenerator.ReservedNames)
  }

  /** As written, no well-formed object schema gets a struct generator:
   *  `CppObjectSchema` does not override DoesSupportCodeGeneration, so
   *  `CppSchemaBase.Invalidate` throws NotSupportedException. */
  lemma StructsRejectedAsWritten(x: CppSchema)
    requires CppSchemaBase.NodeValid(x) && x.kind == ObjectKind
    ensures CheckedAsWritten(x) == Err(NotSupported)
  {
  }

  /** The corrected check: an object schema passes exactly when the object
   *  checks accept it, and fails only with their error; every other kind
   *  is checked as written. */
  lemma CheckedSpec(x: CppSchema)
    ensures x.kind == ObjectKind ==> (Checked(x).Ok? <==> CppObjectSchema.ObjectValid(x))
    ensures x.kind == ObjectKind && Checked(x).Err? ==> Checked(x).failure == SchemaError
    ensures x.kind == ObjectKind && Checked(x).Ok? ==> Checked(x).value == CppObjectSchema.ObjectWarnings(x)
    ensures x.kind != ObjectKind ==> Checked(x) == CheckedAsWritten(x)
  {
  }

  /** The node's own blocks (MakeInner). */
  function InnerOf(x: CppSchema): Result<seq<seq<CodeLine>>> {
    if x.kind == ObjectKind then HppStructGenerator.InnerLines(x, HppStructGenerator.NamesOf(x))
    else Ok(HppEnumGenerator.InnerLines(x))
  }

  /** Warnings and blocks, in order. */
  datatype Built = Built(warnings: seq<string>, lines: seq<seq<CodeLine>>)

  /** One piece followed by what comes after it, or the later failure. */
  function Prepend(a: Built, rest: Result<Built>): Result<Built> {
    if rest.Err? then rest else Ok(Built(a.warnings + rest.value.warnings, a.lines + rest.value.lines))
  }

  /** What the constructor leaves: the schema's own warnings, then each
   *  definition's warnings, and the blocks of each definition's generator. */
  function Construction(x: CppSchema): Result<Built>
    decreases x, 2
  {
    var own := Checked(x);
    if own.Err? then Err(own.failure)
    else Prepend(Built(own.value, []), DefinitionsBuilt(x, 0))
  }

  /** The definitions from the k-th on: each one's generator, then its Make. */
  function DefinitionsBuilt(x: CppSchema, k: nat): Result<Built>
    decreases x, 1, |Definitions(x)| - k
  {
    if k >= |Definitions(x)| then Ok(Built([], []))
    else
      var first := Generated(Definitions(x)[k]);
      if first.Err? then first else Prepend(first.value, DefinitionsBuilt(x, k + 1))
  }

  /** A definition's generator from the factory and everything its Make yields. */
  function Generated(x: CppSchema): Result<Built>
    decreases x, 3
  {
    if !Supported(x) then Err(NotSupported)
    else
      var c := Construction(x);
      if c.Err? then c
      else
        var inner := InnerOf(x);
        if inner.Err? then Err(inner.failure) else Ok(Built(c.value.warnings, c.value.lines + inner.value))
  }

  /** A constructed generator: its validated schema and the builders of its
   *  definitions. */
  datatype Generator = Generator(schema: CppSchema, definitionBuilders: seq<CodeBuilder>)

  /** The generator as its constructor leaves it. */
  predicate Valid(g: Generator)
    reads g.definitionBuilders
  {
    Supported(g.schema) && Construction(g.schema).Ok?
    && LinesOf(g.definitionBuilders) == Construction(g.schema).value.lines
  }

  lemma LinesOfAppend(a: seq<CodeBuilder>, b: seq<CodeBuilder>)
    ensures LinesOf(a + b) == LinesOf(a) + LinesOf(b)
  {
    assert |LinesOf(a + b)| == |LinesOf(a) + LinesOf(b)|;
    forall k | 0 <= k < |a + b|
      ensures LinesOf(a + b)[k] == (LinesOf(a) + LinesOf(b))[k]
    {
    }
  }

  lemma PrependAssociates(a: Built, b: Built, rest: Result<Built>)
    ensures Prepend(a, Prepend(b, rest)) == Prepend(Built(a.warnings + b.warnings, a.lines + b.lines), rest)
  {
    if rest.Ok? {
      assert a.warnings + (b.warnings + rest.value.warnings) == a.warnings + b.warnings + rest.value.warnings;
      assert a.lines + (b.lines + rest.value.lines) == a.lines + b.lines + rest.value.lines;
    }
  }

  lemma PrependStep(c: Result<Built>, a: Built, d: Result<Built>, b: Built, rest: Result<Built>)
    requires c == Prepend(a, d) && d == Prepend(b, rest)
    ensures c == Prepend(Built(a.warnings + b.warnings, a.lines + b.lines), rest)
  {
    PrependAssociates(a, b, rest);
  }

  /** HppGeneratorFactory.MakeGenerator: NotSupportedException for a kind
   *  without a generator, otherwise that generator's constructor. */
  method MakeGenerator(x: CppSchema) returns (r: Result<Generator>, warnings: seq<string>)
    ensures r.Ok? <==> Supported(x) && Construction(x).Ok?
    ensures !Supported(x) ==> r == Err(NotSupported)
    ensures Supported(x) && r.Err? ==> Construction(x) == Err(r.failure)
    ensures r.Ok? ==> r.value.schema == x && Valid(r.value) && warnings == Construction(x).value.warnings
    ensures r.Ok? ==> forall b :: b in r.value.definitionBuilders ==> fresh(b)
    decreases x, 2
  {
    if !Supported(x) {
      return Err(NotSupported), [];
    }
    r, warnings := NewGenerator(x);
  }

  /** The constructor: Invalidate, then a generator for each definition, whose
   *  blocks and warnings are appended in turn. */
  method NewGenerator(x: CppSchema) returns (r: Result<Generator>, warnings: seq<string>)
    requires Supported(x)
    ensures r.Ok? <==> Construction(x).Ok?
    ensures r.Err? ==> Construction(x) == Err(r.failure)
    ensures r.Ok? ==> r.value.schema == x && Valid(r.value) && warnings == Construction(x).value.warnings
    ensures r.Ok? ==> forall b :: b in r.value.definitionBuilders ==> fresh(b)
    decreases x, 1
  {
    var own := Check(x);
    if own.Err? {
      return Err(own.failure), [];
    }
    warnings := own.value;
    var builders: seq<CodeBuilder> := [];
    var definitions := Definitions(x);
    var k := 0;
    while k < |definitions|
      invariant 0 <= k <= |definitions|
      invariant forall b :: b in builders ==> fresh(b)
      invariant Construction(x) == Prepend(Built(warnings, LinesOf(builders)), DefinitionsBuilt(x, k))
    {
      ghost var before := LinesOf(builders);
      var made, moreWarnings := AddDefinition(x, k);
      if made.Err? {
        return Err(made.failure), [];
      }
      assert LinesOf(builders) == before;
      LinesOfAppend(builders, made.value);
      ConstructionStep(x, k, warnings, before, moreWarnings, LinesOf(made.value));
      builders := builders + made.value;
      warnings := warnings + moreWarnings;
      k := k + 1;
    }
    r := Ok(Generator(x, builders));
  }

  /** One more definition's warnings and blocks move from what is left to
   *  build to what has been built. */
  lemma ConstructionStep(x: CppSchema, k: nat, warnings: seq<string>, lines: seq<seq<CodeLine>>, more: seq<string>, made: seq<seq<CodeLine>>)
    requires k < |Definitions(x)|
    requires Construction(x) == Prepend(Built(warnings, lines), DefinitionsBuilt(x, k))
    requires DefinitionsBuilt(x, k) == Prepend(Built(more, made), DefinitionsBuilt(x, k + 1))
    ensures Construction(x) == Prepend(Built(warnings + more, lines + made), DefinitionsBuilt(x, k + 1))
  {
    PrependStep(Construction(x), Built(warnings, lines), DefinitionsBuilt(x, k),
      Built(more, made), DefinitionsBuilt(x, k + 1));
  }

  /** The constructor's Invalidate(ReservedNames, out warnings). */
  method Check(x: CppSchema) returns (r: Result<seq<string>>)
    ensures r == Checked(x)
  {
    if x.kind == ObjectKind {
      r := CppObjectSchema.Invalidate(x);
    } else {
      r := CppSchemaBase.Invalidate(x, HppEnumGenerator.ReservedNames);
    }
  }

  /** One pass of the constructor's loop: the k-th definition's generator and
   *  the blocks its Make yields. */
  method AddDefinition(x: CppSchema, k: nat) returns (r: Result<seq<CodeBuilder>>, warnings: seq<string>)
    requires k < |Definitions(x)|
    ensures DefinitionsBuilt(x, k) == Prepend(Built(warnings, if r.Ok? then LinesOf(r.value) else []), DefinitionsBuilt(x, k + 1)) || r.Err?
    ensures r.Err? ==> DefinitionsBuilt(x, k) == Err(r.failure)
    ensures r.Ok? ==> forall b :: b in r.value ==> fresh(b)
    decreases x, 1, |Definitions(x)| - k
  {
    var d := Definitions(x)[k];
    var generator, moreWarnings := MakeGenerator(d);
    if generator.Err? {
      return Err(generator.failure), [];
    }
    var made := Make(generator.value);
    if made.Err? {
      return Err(made.failure), [];
    }
    r, warnings := made, moreWarnings;
  }

  /** Make: every definition's block before the node's own blocks. */
  method Make(g: Generator) returns (r: Result<seq<CodeBuilder>>)
    requires Valid(g)
    ensures Made(g, r)
    ensures r.Ok? ==> forall b :: b in r.value ==> b in g.definitionBuilders || fresh(b)
    decreases g.schema, 0
  {
    ghost var defs := LinesOf(g.definitionBuilders);
    GeneratedFromParts(g.schema, defs);
    var inner := MakeOwn(g.schema);
    if inner.Err? {
      return Err(inner.failure);
    }
    LinesOfAppend(g.definitionBuilders, inner.value);
    r := Ok(g.definitionBuilders + inner.value);
  }

  /** A node's Generated: its construction's blocks followed by its own, or
   *  the failure of its own. */
  lemma GeneratedFromParts(x: CppSchema, defs: seq<seq<CodeLine>>)
    requires Supported(x) && Construction(x).Ok? && defs == Construction(x).value.lines
    ensures Generated(x).Ok? <==> InnerOf(x).Ok?
    ensures InnerOf(x).Err? ==> Generated(x) == Err(InnerOf(x).failure)
    ensures InnerOf(x).Ok? ==> Generated(x).value.lines == defs + InnerOf(x).value
  {
  }

  /** What Make yields: the failure of the first part that cannot be built,
   *  or the definitions' builders followed by the node's own. */
  predicate Made(g: Generator, r: Result<seq<CodeBuilder>>)
    reads g.definitionBuilders, if r.Ok? then r.value else []
  {
    && (r.Ok? <==> Generated(g.schema).Ok?)
    && (r.Err? ==> Generated(g.schema) == Err(r.failure))
    && (r.Ok? ==> LinesOf(r.value) == Generated(g.schema).value.lines)
  }

  /** MakeInner of the node's own generator, with the names it needs. */
  method MakeOwn(x: CppSchema) returns (r: Result<seq<CodeBuilder>>)
    ensures r.Ok? <==> InnerOf(x).Ok?
    ensures r.Err? ==> InnerOf(x) == Err(r.failure)
    ensures r.Ok? ==> LinesOf(r.value) == InnerOf(x).value
    ensures r.Ok? ==> forall b :: b in r.value ==> fresh(b)
  {
    if x.kind == ObjectKind {
      var names := HppStructGenerator.MakeNames(x);
      r := HppStructGenerator.MakeInner(x, names);
      if r.Ok? {
        forall b | b in r.value
          ensures fresh(b)
        {
          var i :| 0 <= i < |r.value| && r.value[i] == b;
          assert i == 0 || i == 1 || i == 2;
        }
      }
    } else {
      var inner := HppEnumGenerator.MakeInner(x);
      forall b | b in inner
        ensures fresh(b)
      {
        var i :| 0 <= i < |inner| && inner[i] == b;
        assert i == 0 || i == 1 || i == 2;
      }
      r := Ok(inner);
    }
  }

  // ---------------------------------------------------------------------------
  // ToString
  // ---------------------------------------------------------------------------

  /** The include guard: the namespace, the type name and the GUID (32 hex
   *  digits, Guid.ToString("N")), each in upper case, the first two in snake
   *  case, joined by underscores. */
  function Guard(x: CppSchema, guid: string): string {
    Join("_", [UpperInvariant(SnakeCase(Interpolated(x.namespace))), UpperInvariant(SnakeCase(x.typename)), UpperInvariant(guid)])
  }

  const Rule := "//======================================================================="

  /** The lines before the includes: the guard's opening and the banner. */
  function BannerLine(k: nat, guard: string, date: string): CodeLine {
    match k
      case 0 => CodeLine("", 0)
      case 1 => CodeLine("#ifndef " + guard, 0)
      case 2 => CodeLine("#define " + guard, 0)
      case 3 => CodeLine("", 0)
      case 4 => CodeLine(Rule, 0)
      case 5 => CodeLine("// This file was generated automatically.", 0)
      case 6 => CodeLine("// Please do not edit it directly, since any changes may be overwritten.", 0)
      case 7 => CodeLine(Rule, 0)
      case 8 => CodeLine("// UTC Date: " + date, 0)
      case 9 => CodeLine(Rule, 0)
      case _ => CodeLine("", 0)
  }

  function BannerLines(guard: string, date: string): seq<CodeLine> {
    seq(11, k requires 0 <= k < 11 => BannerLine(k, guard, date))
  }

  /** The whole header: banner, includes, a blank line, the blocks joined by
   *  blank lines, a blank line and the guard's closing. */
  function UnitLines(guard: string, date: string, includes: seq<CodeLine>, blocks: seq<seq<CodeLine>>): seq<CodeLine> {
    HeadOf(guard, date, includes) + TailOf(guard, blocks)
  }

  function HeadOf(guard: string, date: string, includes: seq<CodeLine>): seq<CodeLine> {
    BannerLines(guard, date) + Rebased(includes, 0) + [CodeLine("", 0)]
  }

  function TailOf(guard: string, blocks: seq<seq<CodeLine>>): seq<CodeLine> {
    Joined(NonEmpty(blocks), 0) + [CodeLine("", 0)] + [CodeLine("#endif // " + guard, 0)]
  }

  /** What ToString yields for a constructed generator: the first failure of
   *  MakeIncludes or Make, or the rendered header. */
  function UnitText(x: CppSchema, guid: string, date: string, format: CodeBuilderFormat): Result<string> {
    var includes := IncludesResult(IncludeSet(x.includes, MoreIncludes(x)));
    if includes.Err? then Err(includes.failure)
    else
      var guard := Guard(x, guid);
      FinishText(x, HeadOf(guard, date, includes.value), guard, format)
  }

  /** The header once its head is known: Make's failure, or the head and the
   *  tail rendered. */
  function FinishText(x: CppSchema, head: seq<CodeLine>, guard: string, format: CodeBuilderFormat): Result<string> {
    var made := Generated(x);
    if made.Err? then Err(made.failure) else Ok(Render(head + TailOf(guard, made.value.lines), format))
  }

  /** The rendered header is the whole unit: banner, includes, blocks and
   *  the guard's closing. */
  lemma UnitTextLines(x: CppSchema, guid: string, date: string, format: CodeBuilderFormat)
    ensures var includes := IncludesResult(IncludeSet(x.includes, MoreIncludes(x)));
      var made := Generated(x);
      UnitText(x, guid, date, format)
      == if includes.Err? then Err(includes.failure)
         else if made.Err? then Err(made.failure)
         else Ok(Render(UnitLines(Guard(x, guid), date, includes.value, made.value.lines), format))
  {
  }

  /** ToString: the clock and the GUID source are parameters. The builder's
   *  lines do not depend on when it is created, so the includes and the
   *  blocks, which may fail, are made first, in the order ToString asks for
   *  them. */
  method ToText(g: Generator, guid: string, date: string, format: CodeBuilderFormat) returns (r: Result<string>)
    requires Valid(g)
    ensures r == UnitText(g.schema, guid, date, format)
  {
    var guard := Guard(g.schema, guid);
    var includes := MakeIncludes(g.schema);
    if includes.Err? {
      return Err(includes.failure);
    }
    var made := Make(g);
    if made.Err? {
      return Err(made.failure);
    }
    var s := Assemble(guard, date, includes.value, made.value, format);
    r := Ok(s);
  }

  /** The banner, the includes, the blocks and the guard's closing, rendered. */
  method Assemble(guard: string, date: string, includes: CodeBuilder, blocks: seq<CodeBuilder>, format: CodeBuilderFormat)
    returns (s: string)
    ensures s == Render(HeadOf(guard, date, includes.lines) + TailOf(guard, LinesOf(blocks)), format)
  {
    var b := AppendHead(guard, date, includes);
    AppendTail(b, blocks, guard);
    s := b.ToString(format);
  }

  /** A fresh builder holding the banner, the includes and a blank line. */
  method AppendHead(guard: string, date: string, includes: CodeBuilder) returns (b: CodeBuilder)
    ensures fresh(b) && b.tabLevel == 0 && b.lines == HeadOf(guard, date, includes.lines)
  {
    b := new CodeBuilder();
    AppendRun(b, BannerLines(guard, date));
    EmptyPrefix(BannerLines(guard, date));
    var _ := b.AppendBuilder(includes);
    b.AppendEmpty();
  }

  lemma EmptyPrefix<U>(s: seq<U>)
    ensures [] + s == s
  {
  }

  /** The blocks joined by blank lines, a blank line and the guard's closing. */
  method AppendTail(b: CodeBuilder, blocks: seq<CodeBuilder>, guard: string)
    requires b.tabLevel == 0 && b !in blocks
    modifies b
    ensures b.lines == old(b.lines) + TailOf(guard, old(LinesOf(blocks)))
  {
    ghost var before := b.lines;
    ghost var joined := Joined(NonEmpty(LinesOf(blocks)), 0);
    var _ := b.AppendJoin(blocks);
    CloseGuard(b, guard);
    Regroup(before, joined, [CodeLine("", 0)] + [CodeLine("#endif // " + guard, 0)]);
  }

  /** A blank line and the guard's closing. */
  method CloseGuard(b: CodeBuilder, guard: string)
    requires b.tabLevel == 0
    modifies b
    ensures b.tabLevel == 0
    ensures b.lines == old(b.lines) + ([CodeLine("", 0)] + [CodeLine("#endif // " + guard, 0)])
  {
    b.AppendEmpty();
    b.Append("#endif // " + guard, 0);
  }

  lemma Regroup<U>(a: seq<U>, b: seq<U>, c: seq<U>)
    ensures a + b + c == a + (b + c)
  {
  }

  /** The header opens the guard on its second and third lines and closes it
   *  on its last, with the includes right after the banner. */
  lemma UnitGuarded(guard: string, date: string, includes: seq<CodeLine>, blocks: seq<seq<CodeLine>>)
    ensures var u := UnitLines(guard, date, includes, blocks);
      && |u| >= 14 + |includes|
      && u[1] == CodeLine("#ifndef " + guard, 0) && u[2] == CodeLine("#define " + guard, 0)
      && u[11..11 + |includes|] == Rebased(includes, 0)
      && u[|u| - 1] == CodeLine("#endif // " + guard, 0)
  {
    var u := UnitLines(guard, date, includes, blocks);
    var banner := BannerLines(guard, date);
    RebasedAt(includes, 0);
    assert |HeadOf(guard, date, includes)| == 12 + |includes|;
    assert u[1] == banner[1] && u[2] == banner[2];
    assert u[11..11 + |includes|] == Rebased(includes, 0);
  }

  /** The guard is a macro name: upper-case letters, digits and underscores,
   *  not starting with a digit, when the GUID is hexadecimal. */
  lemma GuardSpec(x: CppSchema, guid: string)
    requires forall i :: 0 <= i < |guid| ==> IsDigit(guid[i]) || IsLower(guid[i])
    ensures var g := Guard(x, guid);
      && |g| >= 2 + |guid| && !IsDigit(g[0])
      && forall i :: 0 <= i < |g| ==> IsUpper(g[i]) || IsDigit(g[i]) || g[i] == '_'
  {
    var a := SnakeCase(Interpolated(x.namespace));
    var t := SnakeCase(x.typename);
    SnakeCaseShape(Interpolated(x.namespace));
    SnakeCaseShape(x.typename);
    JoinThree("_", UpperInvariant(a), UpperInvariant(t), UpperInvariant(guid));
    var g := Guard(x, guid);
    forall i | 0 <= i < |g|
      ensures IsUpper(g[i]) || IsDigit(g[i]) || g[i] == '_'
    {
      var n := |a|;
      var m := |t|;
      if i < n {
        assert g[i] == UpperInvariant(a)[i];
      } else if n < i < n + 1 + m {
        assert g[i] == UpperInvariant(t)[i - n - 1];
      } else if n + 1 + m < i {
        assert g[i] == UpperInvariant(guid)[i - n - m - 2];
      }
    }
  }

  lemma JoinThree(separator: string, a: string, b: string, c: string)
    ensures Join(separator, [a, b, c]) == a + separator + b + separator + c
  {
    assert [a, b, c][..2] == [a, b];
    assert [a, b][..1] == [a];
    assert Join(separator, [a]) == a;
    assert Join(separator, [a, b]) == a + separator + b;
  }
}
