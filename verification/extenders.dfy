/** String helpers of the code generator (Extenders.cs): whitespace trimming,
 *  `Nullify`, brace escaping for `String.Format`, snake-case naming, JSON kind
 *  agreement and the two `ForEach` enumerations.
 *  Character classes are those of ASCII. */
module Extenders {
  import opened Errors
  import opened JsonModel

  // ---------------------------------------------------------------------------
  // Character classes
  // ---------------------------------------------------------------------------

  predicate IsUpper(c: char) { 'A' <= c <= 'Z' }

  predicate IsLower(c: char) { 'a' <= c <= 'z' }

  /** Char.IsWhiteSpace restricted to ASCII: space, tab, line feed, vertical tab, form feed, carriage return. */
  predicate IsWhiteSpace(c: char) { c == ' ' || 9 <= c as int <= 13 }

  function ToLower(c: char): (r: char)
    requires IsUpper(c)
    ensures IsLower(r)
  {
    (c as int + 32) as char
  }

  function ToUpper(c: char): (r: char)
    requires IsLower(c)
    ensures IsUpper(r)
  {
    (c as int - 32) as char
  }

  // ---------------------------------------------------------------------------
  // Trim and Nullify
  // ---------------------------------------------------------------------------

  /** The index of the first character of `s` at or after `i` that is not whitespace. */
  function SkipWhiteSpace(s: string, i: nat): (j: nat)
    requires i <= |s|
    ensures i <= j <= |s| && (j < |s| ==> !IsWhiteSpace(s[j]))
    ensures forall k :: i <= k < j ==> IsWhiteSpace(s[k])
    decreases |s| - i
  {
    if i < |s| && IsWhiteSpace(s[i]) then SkipWhiteSpace(s, i + 1) else i
  }

  /** The end of `s[..j]` once its trailing whitespace is dropped. */
  function SkipTrailingWhiteSpace(s: string, j: nat): (k: nat)
    requires j <= |s|
    ensures k <= j && (k > 0 ==> !IsWhiteSpace(s[k - 1]))
    ensures forall i :: k <= i < j ==> IsWhiteSpace(s[i])
  {
    if j > 0 && IsWhiteSpace(s[j - 1]) then SkipTrailingWhiteSpace(s, j - 1) else j
  }

  /** String.TrimStart(): drops leading whitespace. */
  function TrimStart(s: string): string {
    s[SkipWhiteSpace(s, 0)..]
  }

  /** String.TrimEnd(): drops trailing whitespace. */
  function TrimEnd(s: string): string {
    s[..SkipTrailingWhiteSpace(s, |s|)]
  }

  /** String.Trim(): drops leading and trailing whitespace. */
  function Trim(s: string): string {
    TrimEnd(TrimStart(s))
  }

  predicate AllWhiteSpace(s: string) {
    forall i :: 0 <= i < |s| ==> IsWhiteSpace(s[i])
  }

  /** The result of Trim is the piece of its input left after dropping the
   *  leading and trailing whitespace: it has no whitespace at either end, and
   *  it is empty exactly when the input is all whitespace. */
  lemma TrimSpec(s: string)
    ensures var k := |s| - |TrimStart(s)|; var t := Trim(s);
      k + |t| <= |s| && t == s[k..k + |t|]
      && (t == [] || (!IsWhiteSpace(t[0]) && !IsWhiteSpace(t[|t| - 1])))
      && (t == [] <==> AllWhiteSpace(s))
  {
    var a := TrimStart(s);
    var t := TrimEnd(a);
    var k := |s| - |a|;
    if t != [] {
      assert t[0] == a[0];
    }
  }

  /** Extenders.Nullify: a null string is an ArgumentNullException, the empty
   *  string becomes null, any other string is kept. */
  function Nullify(that: Option<string>): (r: Result<Option<string>>)
    ensures r.Err? <==> that.None?
    ensures r.Err? ==> r.failure == ArgumentNull
    ensures r.Ok? ==> (r.value.None? <==> that.value == "")
    ensures r.Ok? && r.value.Some? ==> r.value.value == that.value
  {
    match that
    case None => Err(ArgumentNull)
    case Some(s) => Ok(if |s| == 0 then None else Some(s))
  }

  /** The idiom `x?.Trim().Nullify()` used throughout the schema classes. */
  function TrimNullify(x: Option<string>): Option<string> {
    match x
    case None => None
    case Some(s) => Nullify(Some(Trim(s))).value
  }

  /** `x?.Trim().Nullify()` is null exactly for a null or all-whitespace string,
   *  and otherwise a non-empty piece of x with no whitespace at either end. */
  lemma TrimNullifySpec(x: Option<string>)
    ensures TrimNullify(x).None? <==> (x.None? || AllWhiteSpace(x.value))
    ensures TrimNullify(x).Some? ==>
      var t := TrimNullify(x).value;
      |t| > 0 && !IsWhiteSpace(t[0]) && !IsWhiteSpace(t[|t| - 1]) && |t| <= |x.value|
  {
    if x.Some? { TrimSpec(x.value); }
  }

  // ---------------------------------------------------------------------------
  // ToFormat and the String.Format placeholder syntax it escapes for
  // ---------------------------------------------------------------------------

  /** String.Replace(c, cc): every occurrence of c is doubled. */
  function DoubleChar(s: string, c: char): (r: string)
  {
    if s == [] then []
    else (if s[0] == c then [c, c] else [s[0]]) + DoubleChar(s[1..], c)
  }

  /** Extenders.ToFormat: `{` becomes `{{`, then `}` becomes `}}`; null throws. */
  function ToFormat(that: Option<string>): (r: Result<string>)
    ensures r.Err? <==> that.None?
  {
    match that
    case None => Err(ArgumentNull)
    case Some(s) => Ok(DoubleChar(DoubleChar(s, '{'), '}'))
  }

  function PrefixWith(p: string, r: Result<string>): Result<string> {
    if r.Ok? then Ok(p + r.value) else r
  }

  predicate IsDigit(c: char) { '0' <= c <= '9' }

  /** The number of decimal digits at the start of `s`. */
  function DigitRun(s: string): (n: nat)
    ensures n <= |s| && (forall i :: 0 <= i < n ==> IsDigit(s[i])) && (n < |s| ==> !IsDigit(s[n]))
  {
    if |s| > 0 && IsDigit(s[0]) then 1 + DigitRun(s[1..]) else 0
  }

  /** The value of a run of decimal digits. */
  function DigitsValue(s: string): nat
    requires forall i :: 0 <= i < |s| ==> IsDigit(s[i])
  {
    if s == [] then 0
    else
      assert IsDigit(s[|s| - 1]);
      10 * DigitsValue(s[..|s| - 1]) + (s[|s| - 1] as int - '0' as int)
  }

  /** String.Format: `{{` and `}}` stand for single braces, `{k}` for the k-th
   *  argument; an index past the arguments or any other brace is a
   *  FormatException. */
  function StringFormat(format: string, args: seq<string>): Result<string>
    decreases |format|
  {
    if format == [] then Ok([])
    else if format[0] == '{' then
      if |format| >= 2 && format[1] == '{' then PrefixWith("{", StringFormat(format[2..], args))
      else
        var n := DigitRun(format[1..]);
        if n == 0 || n + 1 >= |format| || format[n + 1] != '}' then Err(FormatError)
        else
          var index := DigitsValue(format[1..n + 1]);
          if index >= |args| then Err(FormatError)
          else PrefixWith(args[index], StringFormat(format[n + 2..], args))
    else if format[0] == '}' then
      if |format| >= 2 && format[1] == '}' then PrefixWith("}", StringFormat(format[2..], args))
      else Err(FormatError)
    else PrefixWith([format[0]], StringFormat(format[1..], args))
  }

  /** String.Format fails only with a FormatException. */
  lemma {:induction false} StringFormatFailure(format: string, args: seq<string>)
    ensures StringFormat(format, args).Err? ==> StringFormat(format, args).failure == FormatError
    decreases |format|
  {
    if format != [] {
      if format[0] == '{' {
        if |format| >= 2 && format[1] == '{' {
          StringFormatFailure(format[2..], args);
        } else {
          var n := DigitRun(format[1..]);
          if !(n == 0 || n + 1 >= |format| || format[n + 1] != '}') {
            StringFormatFailure(format[n + 2..], args);
          }
        }
      } else if format[0] == '}' {
        if |format| >= 2 && format[1] == '}' {
          StringFormatFailure(format[2..], args);
        }
      } else {
        StringFormatFailure(format[1..], args);
      }
    }
  }

  /** String.Format with a single argument. */
  function FormatOne(format: string, arg: string): Result<string> {
    StringFormat(format, [arg])
  }

  /** The placeholder `{0}` is replaced by the argument; text around it is kept. */
  lemma FormatPlaceholder(arg: string)
    ensures FormatOne("{0}", arg) == Ok(arg)
  {
    var f := "{0}";
    assert f[1..] == "0}" && f[1..][1..] == "}";
    assert DigitRun("}") == 0;
    assert DigitRun(f[1..]) == 1;
    assert f[1..2] == "0" && "0"[..0] == [];
    assert DigitsValue(f[1..2]) == 0;
    assert f[3..] == [];
    assert StringFormat(f[3..], [arg]) == Ok([]);
    assert arg + [] == arg;
  }

  /** One-pass form of the two replacements of ToFormat. */
  function EscapeBraces(s: string): string {
    if s == [] then []
    else (if s[0] == '{' || s[0] == '}' then [s[0], s[0]] else [s[0]]) + EscapeBraces(s[1..])
  }

  lemma {:induction false} DoubleCharAppend(a: string, b: string, c: char)
    ensures DoubleChar(a + b, c) == DoubleChar(a, c) + DoubleChar(b, c)
  {
    if a == [] {
      assert a + b == b;
    } else {
      assert (a + b)[0] == a[0];
      assert (a + b)[1..] == a[1..] + b;
      DoubleCharAppend(a[1..], b, c);
    }
  }

  lemma {:induction false} ToFormatOnePass(s: string)
    ensures DoubleChar(DoubleChar(s, '{'), '}') == EscapeBraces(s)
  {
    if s != [] {
      var head := if s[0] == '{' then ['{', '{'] else [s[0]];
      assert DoubleChar(s, '{') == head + DoubleChar(s[1..], '{');
      DoubleCharAppend(head, DoubleChar(s[1..], '{'), '}');
      ToFormatOnePass(s[1..]);
      if s[0] == '{' {
        assert DoubleChar(head, '}') == ['{', '{'] by {
          assert head[1..] == ['{'];
          assert head[1..][1..] == [];
        }
      } else {
        assert head[1..] == [];
      }
    }
  }

  lemma {:induction false} FormatEscaped(s: string, args: seq<string>)
    ensures StringFormat(EscapeBraces(s), args) == Ok(s)
  {
    if s != [] {
      var e := EscapeBraces(s);
      FormatEscaped(s[1..], args);
      if s[0] == '{' || s[0] == '}' {
        assert e[2..] == EscapeBraces(s[1..]);
      } else {
        assert e[1..] == EscapeBraces(s[1..]);
      }
      assert [s[0]] + s[1..] == s;
    }
  }

  /** ToFormat escapes a string for String.Format: formatting the escaped text,
   *  with any arguments, gives the original text back. */
  lemma ToFormatRoundTrip(s: string, args: seq<string>)
    ensures ToFormat(Some(s)).Ok?
    ensures StringFormat(ToFormat(Some(s)).value, args) == Ok(s)
  {
    ToFormatOnePass(s);
    FormatEscaped(s, args);
  }

  // ---------------------------------------------------------------------------
  // .NET string operations the generator relies on
  // ---------------------------------------------------------------------------

  /** String.Join(separator, parts). */
  function Join(separator: string, parts: seq<string>): string {
    if parts == [] then []
    else if |parts| == 1 then parts[0]
    else Join(separator, parts[..|parts| - 1]) + separator + parts[|parts| - 1]
  }

  /** String.Contains(sub). */
  predicate Contains(s: string, sub: string)
    decreases |s|
  {
    if |s| < |sub| then false else s[..|sub|] == sub || Contains(s[1..], sub)
  }

  /** String.PadRight(width, ' '). */
  function PadRight(s: string, width: int): (r: string)
    ensures |r| == if |s| >= width then |s| else width
    ensures r[..|s|] == s && forall i :: |s| <= i < |r| ==> r[i] == ' '
  {
    if |s| >= width then s else PadRight(s, width - 1) + " "
  }

  /** ToUpperInvariant on ASCII: lower-case letters become upper-case. */
  function UpperInvariant(s: string): (r: string)
    ensures |r| == |s|
    ensures forall i :: 0 <= i < |s| ==> r[i] == if IsLower(s[i]) then ToUpper(s[i]) else s[i]
  {
    if s == [] then [] else UpperInvariant(s[..|s| - 1]) + [if IsLower(s[|s| - 1]) then ToUpper(s[|s| - 1]) else s[|s| - 1]]
  }

  /** The decimal digits of a natural number (Int32.ToString / Int64.ToString). */
  function NatText(n: nat): (r: string)
    ensures |r| > 0 && forall i :: 0 <= i < |r| ==> IsDigit(r[i])
  {
    if n < 10 then [('0' as int + n) as char]
    else NatText(n / 10) + [('0' as int + n % 10) as char]
  }

  /** Int32.ToString / Int64.ToString: a minus sign before the digits of a negative number. */
  function IntText(n: int): string {
    if n < 0 then "-" + NatText(-n) else NatText(n)
  }

  /** Reading back the digits of a number gives the number. */
  lemma {:induction false} NatTextRoundTrip(n: nat)
    ensures DigitsValue(NatText(n)) == n
  {
    var r := NatText(n);
    if n >= 10 {
      NatTextRoundTrip(n / 10);
      assert r[..|r| - 1] == NatText(n / 10);
    }
  }

  // ---------------------------------------------------------------------------
  // ToSnakeCase
  // ---------------------------------------------------------------------------

  /** The text the loop of ToSnakeCase appends for `s`, as written: an upper-case
   *  letter always gets a separating underscore, a lower-case letter is copied,
   *  any other character becomes one underscore unless the previous character
   *  was one too (and multiple underscores are not allowed). */
  function SnakeRawAsWritten(s: string, wasUnderscore: bool, allowMultiple: bool): string
    decreases |s|
  {
    if s == [] then []
    else SnakeStepAsWritten(s[0], wasUnderscore, allowMultiple) + SnakeRawAsWritten(s[1..], IsSeparator(s[0]), allowMultiple)
  }

  /** A character that is neither an upper- nor a lower-case letter. */
  predicate IsSeparator(c: char) { !IsUpper(c) && !IsLower(c) }

  /** What one loop iteration of ToSnakeCase appends, as written. */
  function SnakeStepAsWritten(c: char, wasUnderscore: bool, allowMultiple: bool): string {
    if IsUpper(c) then ['_', ToLower(c)]
    else if IsLower(c) then [c]
    else if allowMultiple || !wasUnderscore then ['_'] else []
  }

  /** The index of the first character of `s` at or after `i` that is not '_'. */
  function SkipUnderscores(s: string, i: nat): (j: nat)
    requires i <= |s|
    ensures i <= j <= |s| && (j < |s| ==> s[j] != '_')
    decreases |s| - i
  {
    if i < |s| && s[i] == '_' then SkipUnderscores(s, i + 1) else i
  }

  /** The end of `s[..j]` once its trailing '_' characters are dropped. */
  function SkipTrailingUnderscores(s: string, j: nat): (k: nat)
    requires j <= |s|
    ensures k <= j && (k > 0 ==> s[k - 1] != '_')
  {
    if j > 0 && s[j - 1] == '_' then SkipTrailingUnderscores(s, j - 1) else j
  }

  /** String.TrimStart('_'). */
  function TrimStartUnderscores(s: string): string {
    s[SkipUnderscores(s, 0)..]
  }

  /** String.TrimEnd('_'). */
  function TrimEndUnderscores(s: string): string {
    s[..SkipTrailingUnderscores(s, |s|)]
  }

  /** String.Trim('_'). */
  function TrimUnderscores(s: string): string {
    TrimEndUnderscores(TrimStartUnderscores(s))
  }

  /** Trim('_') keeps a contiguous piece of its input with no underscore at either end. */
  lemma TrimUnderscoresSpec(s: string)
    ensures var k := |s| - |TrimStartUnderscores(s)|; var r := TrimUnderscores(s);
      k + |r| <= |s| && r == s[k..k + |r|]
      && (r == [] || (r[0] != '_' && r[|r| - 1] != '_'))
  {
    var a := TrimStartUnderscores(s);
    var r := TrimEndUnderscores(a);
    if r != [] { assert r[0] == a[0]; }
  }

  /** ToSnakeCase as written. */
  function SnakeCaseAsWritten(s: string, allowMultiple: bool): string {
    TrimUnderscores(SnakeRawAsWritten(s, false, allowMultiple))
  }

  /** Extenders.ToSnakeCase (the loop with a StringBuilder and the
   *  `wasUnderscore` flag, then Trim('_')). */
  method ToSnakeCase(that: string, allowMultipleUnderscores: bool) returns (r: string)
    ensures r == SnakeCaseAsWritten(that, allowMultipleUnderscores)
  {
    var builder: string := [];
    var wasUnderscore := false;
    var i := 0;
    while i < |that|
      invariant 0 <= i <= |that|
      invariant builder + SnakeRawAsWritten(that[i..], wasUnderscore, allowMultipleUnderscores)
                == SnakeRawAsWritten(that, false, allowMultipleUnderscores)
    {
      SnakeRawUnfold(that, i, wasUnderscore, allowMultipleUnderscores);
      var piece, isUnderscore := AppendedFor(that[i], wasUnderscore, allowMultipleUnderscores);
      ConcatAssoc(builder, piece, SnakeRawAsWritten(that[i + 1..], isUnderscore, allowMultipleUnderscores));
      builder := builder + piece;
      wasUnderscore := isUnderscore;
      i := i + 1;
    }
    assert that[i..] == [];
    assert builder + [] == builder;
    r := TrimUnderscores(builder);
  }

  /** The body of ToSnakeCase's loop for one character: what it appends, and
   *  whether the character counts as a separator. */
  method AppendedFor(c: char, wasUnderscore: bool, allowMultipleUnderscores: bool) returns (piece: string, isUnderscore: bool)
    ensures piece == SnakeStepAsWritten(c, wasUnderscore, allowMultipleUnderscores)
    ensures isUnderscore == IsSeparator(c)
  {
    piece, isUnderscore := [], false;
    if IsUpper(c) {
      piece := ['_', ToLower(c)];
    } else if IsLower(c) {
      piece := [c];
    } else {
      isUnderscore := true;
      if allowMultipleUnderscores || !wasUnderscore {
        piece := ['_'];
      }
    }
  }

  lemma ConcatAssoc(a: string, b: string, c: string)
    ensures (a + b) + c == a + (b + c)
  {
  }

  lemma SnakeRawUnfold(s: string, i: int, wasUnderscore: bool, allowMultiple: bool)
    requires 0 <= i < |s|
    ensures SnakeRawAsWritten(s[i..], wasUnderscore, allowMultiple)
      == SnakeStepAsWritten(s[i], wasUnderscore, allowMultiple)
         + SnakeRawAsWritten(s[i + 1..], IsSeparator(s[i]), allowMultiple)
  {
    assert s[i..][1..] == s[i + 1..];
  }

  /** As written, an upper-case letter after a separator yields two underscores
   *  although multiple underscores were not allowed: "a_B" becomes "a__b". */
  lemma SnakeCaseDoubleUnderscore()
    ensures SnakeCaseAsWritten("a_B", false) == "a__b"
  {
    var s := "a_B";
    assert s[1..] == "_B" && s[1..][1..] == "B" && s[1..][1..][1..] == [];
    assert ToLower('B') == 'b';
    assert SnakeRawAsWritten("B", true, false) == "_b";
    assert SnakeRawAsWritten("_B", false, false) == "__b";
    assert SnakeRawAsWritten(s, false, false) == "a__b";
  }

  /** ToSnakeCase as evidently intended: an upper-case letter right after a
   *  separator reuses that separator unless multiple underscores are allowed. */
  function SnakeRaw(s: string, wasUnderscore: bool, allowMultiple: bool): string
    decreases |s|
  {
    if s == [] then []
    else SnakeStep(s[0], wasUnderscore, allowMultiple) + SnakeRaw(s[1..], IsSeparator(s[0]), allowMultiple)
  }

  function SnakeStep(c: char, wasUnderscore: bool, allowMultiple: bool): string {
    var separate := allowMultiple || !wasUnderscore;
    if IsUpper(c) then (if separate then ['_', ToLower(c)] else [ToLower(c)])
    else if IsLower(c) then [c]
    else if separate then ['_'] else []
  }

  /** Snake-case name of `s`; the model's naming (fields, methods, include
   *  guards, enum instances) uses this corrected form. */
  function SnakeCase(s: string): string {
    TrimUnderscores(SnakeRaw(s, false, false))
  }

  predicate SnakeAlphabet(s: string) {
    forall i :: 0 <= i < |s| ==> IsLower(s[i]) || s[i] == '_'
  }

  predicate NoDoubleUnderscore(s: string) {
    forall i :: 0 <= i < |s| - 1 ==> !(s[i] == '_' && s[i + 1] == '_')
  }

  lemma {:induction false} SnakeRawShape(s: string, wasUnderscore: bool)
    ensures SnakeAlphabet(SnakeRaw(s, wasUnderscore, false))
    ensures NoDoubleUnderscore(SnakeRaw(s, wasUnderscore, false))
    ensures wasUnderscore && SnakeRaw(s, wasUnderscore, false) != [] ==> SnakeRaw(s, wasUnderscore, false)[0] != '_'
    decreases |s|
  {
    if s != [] {
      var w := IsSeparator(s[0]);
      var head := SnakeStep(s[0], wasUnderscore, false);
      var rest := SnakeRaw(s[1..], w, false);
      SnakeRawShape(s[1..], w);
      var r := head + rest;
      assert SnakeRaw(s, wasUnderscore, false) == r;
      assert |head| <= 2;
      assert |head| == 2 ==> head[0] == '_' && IsLower(head[1]);
      assert wasUnderscore ==> head == [] || head[0] != '_';
      assert head != [] && head[|head| - 1] == '_' ==> w;
      forall i | 0 <= i < |r| ensures IsLower(r[i]) || r[i] == '_' {
        if i >= |head| { assert r[i] == rest[i - |head|]; }
      }
      forall i | 0 <= i < |r| - 1 ensures !(r[i] == '_' && r[i + 1] == '_') {
        if i + 1 < |head| {
        } else if i + 1 == |head| {
          assert r[i + 1] == rest[0];
        } else {
          assert r[i] == rest[i - |head|] && r[i + 1] == rest[i + 1 - |head|];
        }
      }
    }
  }

  /** A snake-case name consists of lower-case letters and underscores, neither
   *  starts nor ends with an underscore, and has no two underscores in a row. */
  lemma SnakeCaseShape(s: string)
    ensures var r := SnakeCase(s);
      SnakeAlphabet(r) && NoDoubleUnderscore(r)
      && (r == [] || (r[0] != '_' && r[|r| - 1] != '_'))
  {
    var raw := SnakeRaw(s, false, false);
    SnakeRawShape(s, false);
    TrimUnderscoresSpec(raw);
    var r := TrimUnderscores(raw);
    var k := |raw| - |TrimStartUnderscores(raw)|;
    forall i | 0 <= i < |r| ensures IsLower(r[i]) || r[i] == '_' {
      assert r[i] == raw[k + i];
    }
    forall i | 0 <= i < |r| - 1 ensures !(r[i] == '_' && r[i + 1] == '_') {
      assert r[i] == raw[k + i] && r[i + 1] == raw[k + i + 1];
    }
  }

  /** The two forms agree on names in which no upper-case letter follows a
   *  separator character, such as "camelCase" or "snake_case". */
  lemma {:induction false} SnakeRawAgrees(s: string, wasUnderscore: bool)
    requires |s| > 0 && IsUpper(s[0]) ==> !wasUnderscore
    requires forall i :: 1 <= i < |s| && IsUpper(s[i]) ==> !IsSeparator(s[i - 1])
    ensures SnakeRaw(s, wasUnderscore, false) == SnakeRawAsWritten(s, wasUnderscore, false)
    decreases |s|
  {
    if s != [] {
      var w := IsSeparator(s[0]);
      forall i | 1 <= i < |s[1..]| && IsUpper(s[1..][i])
        ensures !IsSeparator(s[1..][i - 1])
      {
        assert s[1..][i] == s[i + 1];
      }
      if |s| > 1 && IsUpper(s[1]) {
        assert !IsSeparator(s[0]);
      }
      SnakeRawAgrees(s[1..], w);
      if IsUpper(s[0]) {
        assert !wasUnderscore;
      }
      assert SnakeStep(s[0], wasUnderscore, false) == SnakeStepAsWritten(s[0], wasUnderscore, false);
    }
  }

  // ---------------------------------------------------------------------------
  // DoesAgree
  // ---------------------------------------------------------------------------

  /** Extenders.DoesAgree: whether a JSON value kind fits a schema kind
   *  (a missing schema kind is written None). */
  function DoesAgree(that: JsonValueKind, other: Option<SchemaKind>): bool {
    match that
    case UndefinedValue => other.None?
    case NullValue => other == Some(NullKind)
    case TrueValue => other == Some(BooleanKind)
    case FalseValue => other == Some(BooleanKind)
    case NumberValue => other == Some(NumberKind) || other == Some(IntegerKind)
    case StringValue => other == Some(StringKind)
    case ArrayValue => other == Some(ArrayKind)
    case ObjectValue => other == Some(ObjectKind)
  }

  /** An independent statement of which schema kinds a value kind agrees with:
   *  a number fits both numeric kinds, true and false fit Boolean, Undefined
   *  fits only the missing kind, and every other kind fits exactly its namesake. */
  function AgreeingKinds(k: JsonValueKind): set<SchemaKind> {
    match k
    case UndefinedValue => {}
    case NumberValue => {NumberKind, IntegerKind}
    case TrueValue => {BooleanKind}
    case FalseValue => {BooleanKind}
    case NullValue => {NullKind}
    case StringValue => {StringKind}
    case ArrayValue => {ArrayKind}
    case ObjectValue => {ObjectKind}
  }

  lemma DoesAgreeSpec(k: JsonValueKind, other: Option<SchemaKind>)
    ensures DoesAgree(k, other) <==>
      (if other.None? then k == UndefinedValue else other.value in AgreeingKinds(k))
  {
  }

  // ---------------------------------------------------------------------------
  // ForEach
  // ---------------------------------------------------------------------------

  /** Extenders.ForEach(list, action(x, isFirst, isLast)): the arguments of the
   *  successive calls of `action`. */
  method ForEachFirstLast<T>(that: seq<T>) returns (calls: seq<(T, bool, bool)>)
    ensures |calls| == |that|
    ensures forall k :: 0 <= k < |that| ==> calls[k] == (that[k], k == 0, k == |that| - 1)
  {
    calls := [];
    var k := 0;
    while k < |that|
      invariant 0 <= k <= |that| && |calls| == k
      invariant forall j :: 0 <= j < k ==> calls[j] == (that[j], j == 0, j == |that| - 1)
    {
      calls := calls + [(that[k], k == 0, k == |that| - 1)];
      k := k + 1;
    }
  }

  /** Extenders.ForEach(list, action(x, index)): the arguments of the successive
   *  calls of `action`. */
  method ForEachIndexed<T>(that: seq<T>) returns (calls: seq<(T, int)>)
    ensures |calls| == |that|
    ensures forall k :: 0 <= k < |that| ==> calls[k] == (that[k], k)
  {
    calls := [];
    var k := 0;
    while k < |that|
      invariant 0 <= k <= |that| && |calls| == k
      invariant forall j :: 0 <= j < k ==> calls[j] == (that[j], j)
    {
      calls := calls + [(that[k], k)];
      k := k + 1;
    }
  }
}
