/** The indentation-tracked text accumulator of the generator (CodeBuilder.cs):
 *  a list of code lines, each with its own indentation level, a current
 *  indentation level raised by code blocks, and rendering to text. */
module CodeBuilder {
  import opened Errors

  /** A line of code and its indentation level (CodeLine.cs is not part of this
   *  model; a line is empty when its code is the empty string). */
  datatype CodeLine = CodeLine(code: string, tabOffset: int) {
    predicate IsEmpty() { code == [] }
  }

  /** Rendering options; the tab size is a count of symbols and so not negative. */
  datatype CodeBuilderFormat = CodeBuilderFormat(
    tabSize: nat, tabSymbol: char, doCollapseEmptyLines: bool, newLineSequence: string)

  // ---------------------------------------------------------------------------
  // Specification of appending
  // ---------------------------------------------------------------------------

  /** A line moved onto indentation level `level`: `value with {TabOffset = level + value.TabOffset}`. */
  function Rebase(x: CodeLine, level: int): CodeLine {
    x.(tabOffset := level + x.tabOffset)
  }

  /** Every line of `values`, in order, moved onto indentation level `level`. */
  function Rebased(values: seq<CodeLine>, level: int): seq<CodeLine> {
    if values == [] then []
    else Rebased(values[..|values| - 1], level) + [Rebase(values[|values| - 1], level)]
  }

  /** Re-basing keeps the number and order of lines and each line's code, and
   *  adds `level` to each line's own offset. */
  lemma {:induction false} RebasedAt(values: seq<CodeLine>, level: int)
    ensures |Rebased(values, level)| == |values|
    ensures forall k :: 0 <= k < |values| ==>
      Rebased(values, level)[k].code == values[k].code
      && Rebased(values, level)[k].tabOffset == level + values[k].tabOffset
  {
    if values != [] {
      RebasedAt(values[..|values| - 1], level);
    }
  }

  lemma {:induction false} RebasedAppend(a: seq<CodeLine>, b: seq<CodeLine>, level: int)
    ensures Rebased(a + b, level) == Rebased(a, level) + Rebased(b, level)
    decreases |b|
  {
    if b == [] {
      assert a + b == a;
    } else {
      assert (a + b)[..|a + b| - 1] == a + b[..|b| - 1];
      RebasedAppend(a, b[..|b| - 1], level);
    }
  }

  /** Appending a builder that was itself filled from another builder adds the
   *  two levels: nesting composes indentation. */
  lemma {:induction false} RebasedTwice(values: seq<CodeLine>, inner: int, outer: int)
    ensures Rebased(Rebased(values, inner), outer) == Rebased(values, inner + outer)
  {
    if values != [] {
      var init := values[..|values| - 1];
      var y := Rebase(values[|values| - 1], inner);
      RebasedTwice(init, inner, outer);
      RebasedAppend(Rebased(init, inner), [y], outer);
      assert [y][..0] == [];
    }
  }

  /** The pieces that are not empty, in their original order. */
  function NonEmpty(pieces: seq<seq<CodeLine>>): seq<seq<CodeLine>> {
    if pieces == [] then []
    else NonEmpty(pieces[..|pieces| - 1]) + (if pieces[|pieces| - 1] == [] then [] else [pieces[|pieces| - 1]])
  }

  /** Filtering keeps exactly the non-empty pieces and never adds one. */
  lemma {:induction false} NonEmptySpec(pieces: seq<seq<CodeLine>>)
    ensures |NonEmpty(pieces)| <= |pieces|
    ensures forall p :: p in NonEmpty(pieces) <==> p in pieces && p != []
  {
    if pieces != [] {
      var init := pieces[..|pieces| - 1];
      NonEmptySpec(init);
      assert pieces == init + [pieces[|pieces| - 1]];
    }
  }

  /** The non-empty pieces, re-based, with one blank line at `level` between
   *  consecutive pieces. */
  function Joined(pieces: seq<seq<CodeLine>>, level: int): seq<CodeLine> {
    if pieces == [] then []
    else if |pieces| == 1 then Rebased(pieces[0], level)
    else Joined(pieces[..|pieces| - 1], level) + [CodeLine("", level)] + Rebased(pieces[|pieces| - 1], level)
  }

  function TotalLength(pieces: seq<seq<CodeLine>>): nat {
    if pieces == [] then 0 else TotalLength(pieces[..|pieces| - 1]) + |pieces[|pieces| - 1]|
  }

  /** Joining n pieces adds exactly n - 1 blank lines to their lines. */
  lemma {:induction false} JoinedLength(pieces: seq<seq<CodeLine>>, level: int)
    requires pieces != []
    ensures |Joined(pieces, level)| == TotalLength(pieces) + |pieces| - 1
  {
    RebasedAt(pieces[|pieces| - 1], level);
    if |pieces| > 1 {
      JoinedLength(pieces[..|pieces| - 1], level);
    } else {
      assert pieces[..0] == [];
    }
  }

  /** Two joined groups of pieces are separated by exactly one blank line. */
  lemma {:induction false} JoinedSplit(p: seq<seq<CodeLine>>, q: seq<seq<CodeLine>>, level: int)
    requires p != [] && q != []
    ensures Joined(p + q, level) == Joined(p, level) + [CodeLine("", level)] + Joined(q, level)
    decreases |q|
  {
    var blank := [CodeLine("", level)];
    var last := Rebased(q[|q| - 1], level);
    JoinedLast(p, q, level);
    if |q| > 1 {
      var q' := q[..|q| - 1];
      JoinedSplit(p, q', level);
      JoinedAppendLast(q, level);
      Regroup4(Joined(p, level), blank, Joined(q', level), blank + last);
    } else {
      assert Joined(q, level) == last;
    }
  }

  /** Joining p + q ends with q's last piece, after a blank line. */
  lemma JoinedLast(p: seq<seq<CodeLine>>, q: seq<seq<CodeLine>>, level: int)
    requires p != [] && q != []
    ensures Joined(p + q, level)
      == Joined(p + q[..|q| - 1], level) + [CodeLine("", level)] + Rebased(q[|q| - 1], level)
  {
    var pq := p + q;
    JoinedAppendLast(pq, level);
    assert pq[|pq| - 1] == q[|q| - 1];
    assert pq[..|pq| - 1] == p + q[..|q| - 1];
  }

  /** A join of several pieces: the join of all but the last, a blank line,
   *  the last. */
  lemma JoinedAppendLast(q: seq<seq<CodeLine>>, level: int)
    requires |q| > 1
    ensures Joined(q, level) == Joined(q[..|q| - 1], level) + [CodeLine("", level)] + Rebased(q[|q| - 1], level)
  {
  }

  lemma Regroup4<U>(a: seq<U>, b: seq<U>, c: seq<U>, d: seq<U>)
    ensures a + b + c + d == a + b + (c + d)
  {
  }

  // ---------------------------------------------------------------------------
  // Specification of rendering
  // ---------------------------------------------------------------------------

  function Repeat(c: char, n: nat): (r: string)
    ensures |r| == n && forall i :: 0 <= i < n ==> r[i] == c
  {
    if n == 0 then [] else Repeat(c, n - 1) + [c]
  }

  /** The text of one line: its indentation (negative levels count as 0) and
   *  code, left out for an empty line when empty lines collapse, then the line
   *  terminator. */
  function RenderLine(x: CodeLine, format: CodeBuilderFormat): string {
    var offset := format.tabSize * (if x.tabOffset < 0 then 0 else x.tabOffset);
    (if format.doCollapseEmptyLines && x.IsEmpty() then [] else Repeat(format.tabSymbol, offset) + x.code)
    + format.newLineSequence
  }

  function Render(lines: seq<CodeLine>, format: CodeBuilderFormat): string {
    if lines == [] then []
    else Render(lines[..|lines| - 1], format) + RenderLine(lines[|lines| - 1], format)
  }

  /** Rendering distributes over concatenation of line lists. */
  lemma {:induction false} RenderAppend(a: seq<CodeLine>, b: seq<CodeLine>, format: CodeBuilderFormat)
    ensures Render(a + b, format) == Render(a, format) + Render(b, format)
    decreases |b|
  {
    if b == [] {
      assert a + b == a;
    } else {
      assert (a + b)[..|a + b| - 1] == a + b[..|b| - 1];
      RenderAppend(a, b[..|b| - 1], format);
    }
  }

  /** A line on a negative level renders as if it were on level 0. */
  lemma RenderClampsNegative(x: CodeLine, format: CodeBuilderFormat)
    requires x.tabOffset < 0
    ensures RenderLine(x, format) == RenderLine(x.(tabOffset := 0), format)
    ensures !(format.doCollapseEmptyLines && x.IsEmpty()) ==> RenderLine(x, format) == x.code + format.newLineSequence
  {
    assert Repeat(format.tabSymbol, 0) == [];
  }

  /** With collapsing on, an empty line renders as the bare terminator,
   *  whatever its level; otherwise a line renders as its code after exactly
   *  tabSize times its (clamped) level indentation symbols. */
  lemma RenderLineShape(x: CodeLine, format: CodeBuilderFormat)
    ensures format.doCollapseEmptyLines && x.IsEmpty() ==> RenderLine(x, format) == format.newLineSequence
    ensures !(format.doCollapseEmptyLines && x.IsEmpty()) ==>
      var n := format.tabSize * (if x.tabOffset < 0 then 0 else x.tabOffset);
      var r := RenderLine(x, format);
      |r| == n + |x.code| + |format.newLineSequence|
      && (forall i :: 0 <= i < n ==> r[i] == format.tabSymbol)
      && r[n..n + |x.code|] == x.code
      && r[n + |x.code|..] == format.newLineSequence
  {
  }

  // ---------------------------------------------------------------------------
  // The builder
  // ---------------------------------------------------------------------------

  /** The lines of each builder, in order. */
  function LinesOf(values: seq<CodeBuilder>): (r: seq<seq<CodeLine>>)
    reads values
    ensures |r| == |values| && forall k :: 0 <= k < |values| ==> r[k] == values[k].lines
  {
    if values == [] then [] else LinesOf(values[..|values| - 1]) + [values[|values| - 1].lines]
  }

  /** A run of `Append` calls: each line in turn, at the level it names. */
  method AppendRun(b: CodeBuilder, lines: seq<CodeLine>)
    modifies b
    ensures b.lines == old(b.lines) + lines && b.tabLevel == old(b.tabLevel)
  {
    var k := 0;
    while k < |lines|
      invariant 0 <= k <= |lines| && b.tabLevel == old(b.tabLevel)
      invariant b.lines == old(b.lines) + lines[..k]
    {
      assert lines[..k + 1] == lines[..k] + [lines[k]];
      b.Append(lines[k].code, lines[k].tabOffset - b.tabLevel);
      k := k + 1;
    }
    assert lines[..k] == lines;
  }

  /** One more piece joined: a blank line before it unless it is the first. */
  lemma JoinedStep(pieces: seq<seq<CodeLine>>, j: nat, level: int)
    requires j < |pieces|
    ensures Joined(pieces[..j + 1], level)
      == Joined(pieces[..j], level) + (if j == 0 then [] else [CodeLine("", level)]) + Rebased(pieces[j], level)
  {
    assert pieces[..j + 1][..j] == pieces[..j];
    assert pieces[..j + 1][j] == pieces[j];
  }

  /** The first loop of AppendJoin: the builders that hold lines, in order. */
  method NonEmptyBuilders(values: seq<CodeBuilder>) returns (nonEmpty: seq<CodeBuilder>, ghost pieces: seq<seq<CodeLine>>)
    ensures |pieces| == |nonEmpty| && pieces == NonEmpty(LinesOf(values))
    ensures forall i :: 0 <= i < |nonEmpty| ==> nonEmpty[i] in values && pieces[i] == nonEmpty[i].lines
    ensures forall i :: 0 <= i < |nonEmpty| ==> nonEmpty[i].lines != []
    ensures forall b :: b in values && b.lines != [] ==> b in nonEmpty
  {
    ghost var all := LinesOf(values);
    nonEmpty := [];
    pieces := [];
    var k := 0;
    while k < |values|
      invariant 0 <= k <= |values| && |pieces| == |nonEmpty|
      invariant forall i :: 0 <= i < |nonEmpty| ==> nonEmpty[i] in values && pieces[i] == nonEmpty[i].lines
      invariant forall i :: 0 <= i < |nonEmpty| ==> nonEmpty[i].lines != []
      invariant forall i :: 0 <= i < k && values[i].lines != [] ==> values[i] in nonEmpty
      invariant pieces == NonEmpty(all[..k])
    {
      assert all[..k + 1][..k] == all[..k];
      assert all[k] == values[k].lines;
      if !values[k].IsEmpty() {
        nonEmpty := nonEmpty + [values[k]];
        pieces := pieces + [values[k].lines];
      }
      k := k + 1;
    }
    assert all[..k] == all;
  }

  class CodeBuilder {
    var lines: seq<CodeLine>
    var tabLevel: int

    constructor ()
      ensures lines == [] && tabLevel == 0
    {
      lines := [];
      tabLevel := 0;
    }

    predicate IsEmpty()
      reads this
    {
      |lines| == 0
    }

    /** NewCodeBlock: lines appended until the block is disposed sit one level deeper. */
    method NewCodeBlock() returns (block: BuilderBlock)
      modifies this
      ensures fresh(block) && block.Valid() && block.builder == this && !block.disposedValue
      ensures tabLevel == old(tabLevel) + 1 && lines == old(lines)
    {
      block := new BuilderBlock(this);
    }

    /** Append(): one empty line at the current level. */
    method AppendEmpty()
      modifies this
      ensures lines == old(lines) + [CodeLine("", tabLevel)] && tabLevel == old(tabLevel)
    {
      lines := lines + [CodeLine("", tabLevel)];
    }

    /** Append(value, tabOffset): exactly one line, at the current level plus the offset. */
    method Append(value: string, tabOffset: int)
      modifies this
      ensures lines == old(lines) + [CodeLine(value, old(tabLevel) + tabOffset)] && tabLevel == old(tabLevel)
    {
      lines := lines + [CodeLine(value, tabLevel + tabOffset)];
    }

    /** Append(CodeLine): the line moved onto the current level. */
    method AppendLine(value: CodeLine)
      modifies this
      ensures lines == old(lines) + [Rebase(value, tabLevel)] && tabLevel == old(tabLevel)
    {
      lines := lines + [Rebase(value, tabLevel)];
    }

    /** Append(IEnumerable<CodeLine>): each line in turn. */
    method AppendLines(values: seq<CodeLine>)
      modifies this
      ensures lines == old(lines) + Rebased(values, tabLevel) && tabLevel == old(tabLevel)
    {
      var k := 0;
      while k < |values|
        invariant 0 <= k <= |values| && tabLevel == old(tabLevel)
        invariant lines == old(lines) + Rebased(values[..k], tabLevel)
      {
        assert values[..k + 1][..k] == values[..k];
        AppendLine(values[k]);
        k := k + 1;
      }
      assert values[..k] == values;
    }

    /** Append(CodeBuilder): the other builder's lines, re-based, in order.
     *  The foreach enumerates the other builder's list; when that is this
     *  builder's own non-empty list, the first line is added, which changes
     *  the list, and the next step of the enumeration throws
     *  InvalidOperationException. */
    method AppendBuilder(value: CodeBuilder) returns (r: Result<()>)
      modifies this
      ensures r.Ok? <==> value != this || old(lines) == []
      ensures r.Ok? ==> lines == old(lines) + Rebased(old(value.lines), old(tabLevel))
      ensures r.Err? ==> r.failure == InvalidOperation && lines == old(lines) + [Rebase(old(lines)[0], old(tabLevel))]
      ensures tabLevel == old(tabLevel)
    {
      if value == this && lines != [] {
        AppendLine(lines[0]);
        return Err(InvalidOperation);
      }
      AppendLines(value.lines);
      r := Ok(());
    }

    /** AppendJoin: empty builders are skipped and one blank line separates the
     *  others. Whether a builder is empty is decided before anything is
     *  appended, so this builder, listed among the values, is skipped when it
     *  starts empty; when it does not, appending it to itself throws
     *  InvalidOperationException after the pieces before it, the blank line
     *  and its own first line. */
    method AppendJoin(values: seq<CodeBuilder>) returns (r: Result<()>)
      modifies this
      ensures r.Ok? <==> this !in values || old(lines) == []
      ensures r.Ok? ==> lines == old(lines) + Joined(old(NonEmpty(LinesOf(values))), old(tabLevel))
      ensures r.Err? ==> r.failure == InvalidOperation
      ensures r.Err? ==> (exists j ::
        0 <= j < |old(NonEmpty(LinesOf(values)))| && old(NonEmpty(LinesOf(values)))[j] == old(lines)
        && lines == old(lines) + Joined(old(NonEmpty(LinesOf(values)))[..j], old(tabLevel))
           + (if j == 0 then [] else [CodeLine("", old(tabLevel))]) + [Rebase(old(lines)[0], old(tabLevel))])
      ensures tabLevel == old(tabLevel)
    {
      var nonEmpty, pieces := NonEmptyBuilders(values);
      ghost var stop;
      r, stop := AppendSeparated(nonEmpty, pieces);
    }

    /** The second loop of AppendJoin: each builder, a blank line before all
     *  but the first, until appending one fails. */
    method AppendSeparated(nonEmpty: seq<CodeBuilder>, ghost pieces: seq<seq<CodeLine>>)
        returns (r: Result<()>, ghost stop: nat)
      requires |pieces| == |nonEmpty|
      requires forall i :: 0 <= i < |nonEmpty| ==> pieces[i] == nonEmpty[i].lines && pieces[i] != []
      modifies this
      ensures r.Ok? <==> this !in nonEmpty
      ensures r.Ok? ==> lines == old(lines) + Joined(pieces, old(tabLevel))
      ensures r.Err? ==> r.failure == InvalidOperation && stop < |pieces| && pieces[stop] == old(lines)
      ensures r.Err? ==> (
        lines == old(lines) + Joined(pieces[..stop], old(tabLevel))
        + (if stop == 0 then [] else [CodeLine("", old(tabLevel))]) + [Rebase(old(lines)[0], old(tabLevel))])
      ensures tabLevel == old(tabLevel)
    {
      var isFirst := true;
      var j := 0;
      stop := 0;
      while j < |nonEmpty|
        invariant 0 <= j <= |nonEmpty| && tabLevel == old(tabLevel)
        invariant isFirst <==> j == 0
        invariant forall i :: 0 <= i < j ==> nonEmpty[i] != this
        invariant forall i :: 0 <= i < |nonEmpty| && nonEmpty[i] != this ==> pieces[i] == nonEmpty[i].lines
        invariant lines == old(lines) + Joined(pieces[..j], tabLevel)
      {
        JoinedStep(pieces, j, tabLevel);
        assert nonEmpty[j] == this ==> pieces[j] == old(lines);
        var appended := AppendPiece(nonEmpty[j], isFirst);
        if appended.Err? {
          stop := j;
          return appended, stop;
        }
        isFirst := false;
        j := j + 1;
      }
      assert pieces[..j] == pieces;
      r := Ok(());
    }

    /** One builder of AppendJoin, after a blank line unless it is the first. */
    method AppendPiece(value: CodeBuilder, isFirst: bool) returns (r: Result<()>)
      modifies this
      ensures r.Ok? <==> value != this || (isFirst && old(lines) == [])
      ensures r.Ok? ==> (
        lines == old(lines) + (if isFirst then [] else [CodeLine("", old(tabLevel))])
        + Rebased(old(value.lines), old(tabLevel)))
      ensures r.Err? ==> r.failure == InvalidOperation
      ensures r.Err? ==> (
        lines == old(lines) + (if isFirst then [] else [CodeLine("", old(tabLevel))])
        + [Rebase((old(lines) + [CodeLine("", old(tabLevel))])[0], old(tabLevel))])
      ensures tabLevel == old(tabLevel)
    {
      if !isFirst {
        AppendEmpty();
      }
      r := AppendBuilder(value);
    }

    /** ToString(format): the rendering of every line in order. */
    method ToString(format: CodeBuilderFormat) returns (s: string)
      ensures s == Render(lines, format)
    {
      s := [];
      var k := 0;
      while k < |lines|
        invariant 0 <= k <= |lines|
        invariant s == Render(lines[..k], format)
      {
        RenderStep(lines, k, format);
        var t := LineText(lines[k], format);
        s := s + t;
        k := k + 1;
      }
      assert lines[..k] == lines;
    }
  }

  /** The loop body of ToString: one line's indentation, code and terminator. */
  method LineText(x: CodeLine, format: CodeBuilderFormat) returns (t: string)
    ensures t == RenderLine(x, format)
  {
    t := [];
    var offset := format.tabSize * (if x.tabOffset < 0 then 0 else x.tabOffset);
    if !(format.doCollapseEmptyLines && x.IsEmpty()) {
      t := Repeat(format.tabSymbol, offset) + x.code;
    }
    t := t + format.newLineSequence;
  }

  lemma RenderStep(lines: seq<CodeLine>, k: nat, format: CodeBuilderFormat)
    requires k < |lines|
    ensures Render(lines[..k + 1], format) == Render(lines[..k], format) + RenderLine(lines[k], format)
  {
    assert lines[..k + 1][..k] == lines[..k];
  }

  /** The disposable object returned by NewCodeBlock; disposing it lowers the
   *  builder's level once, however often it is disposed. */
  class BuilderBlock {
    var disposedValue: bool
    var builder: CodeBuilder?

    predicate Valid()
      reads this
    {
      disposedValue <==> builder == null
    }

    constructor (builder: CodeBuilder)
      modifies builder
      ensures Valid() && !disposedValue && this.builder == builder
      ensures builder.tabLevel == old(builder.tabLevel) + 1 && builder.lines == old(builder.lines)
    {
      this.builder := builder;
      disposedValue := false;
      new;
      builder.tabLevel := builder.tabLevel + 1;
    }

    /** Dispose(): the first call lowers the level of the builder by one and
     *  releases it; later calls change nothing. */
    method Dispose()
      requires Valid()
      modifies this, builder
      ensures Valid() && disposedValue && builder == null
      ensures !old(disposedValue) ==>
        old(builder).tabLevel == old(builder.tabLevel) - 1 && old(builder).lines == old(builder.lines)
    {
      if !disposedValue {
        builder.tabLevel := builder.tabLevel - 1;
        builder := null;
        disposedValue := true;
      }
    }
  }
}
