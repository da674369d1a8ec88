/** The header of a MATLAB level 4 (.mat) matrix (`mat4_header`): five
 *  32-bit integers (the combined format/type id, the number of rows and of
 *  columns, the imaginary flag and the length of the name counting its
 *  terminator), then the name and a NUL byte. The integers are in the byte
 *  order of the host, taken here to be little-endian; the stream is the
 *  sequence of bytes it holds or receives. */
module Mat4Headers {
  import opened Errors

  type Byte = x: int | 0 <= x < 256

  const Two31: int := 0x8000_0000
  const Two32: int := 0x1_0000_0000

  predicate IsInt32(x: int)
  {
    -Two31 <= x < Two31
  }

  /** static_cast<std::int32_t> of an unsigned size: the value modulo 2^32,
   *  read as two's complement. */
  function WrapInt32(n: nat): (x: int)
    ensures IsInt32(x)
    ensures n < Two31 ==> x == n
  {
    var u := n % Two32;
    if u < Two31 then u else u - Two32
  }

  /** The cast keeps the value modulo 2^32. */
  lemma WrapCongruent(n: nat)
    ensures (WrapInt32(n) - n) % Two32 == 0
  {
    var u := n % Two32;
    assert n == Two32 * (n / Two32) + u;
    if u >= Two31 {
      assert WrapInt32(n) - n == Two32 * (-(n / Two32) - 1);
    } else {
      assert WrapInt32(n) - n == Two32 * (-(n / Two32));
    }
  }

  /** C++ integer division, truncating toward zero. */
  function TruncDiv(a: int, b: int): (q: int)
    requires b > 0
    ensures a >= 0 ==> q == a / b
    ensures a < 0 ==> q == -((-a) / b)
  {
    if a >= 0 then a / b else -((-a) / b)
  }

  // ---------------------------------------------------------------------
  // Identifiers

  /** mat4_data_format. */
  datatype DataFormat = IeeeLittleEndian | IeeeBigEndian | VaxDFloat | VaxGFloat | Cray

  function FormatId(f: DataFormat): int
  {
    match f
    case IeeeLittleEndian => 0
    case IeeeBigEndian => 1000
    case VaxDFloat => 2000
    case VaxGFloat => 3000
    case Cray => 4000
  }

  /** The element types mat4_data_type_id is specialised for. */
  datatype DataType = Double | Float | Int32 | Int16 | UInt16 | UInt8

  function TypeId(t: DataType): int
  {
    match t
    case Double => 0
    case Float => 10
    case Int32 => 20
    case Int16 => 30
    case UInt16 => 40
    case UInt8 => 50
  }

  /** sizeof of each element type. */
  function ByteSize(t: DataType): nat
  {
    match t
    case Double => 8
    case Float => 4
    case Int32 => 4
    case Int16 => 2
    case UInt16 => 2
    case UInt8 => 1
  }

  /** mat4_matrix_type_id. */
  datatype MatrixType = Full | Text | Sparse

  function MatrixTypeId(m: MatrixType): int
  {
    match m
    case Full => 0
    case Text => 1
    case Sparse => 2
  }

  /** mat4_data_type_size_by_id(id): the size of the element type with that
   *  id, and 0 for an id no type has. */
  function DataTypeSizeById(id: int): (n: nat)
    ensures n != 0 <==> exists t :: TypeId(t) == id
    ensures forall t :: TypeId(t) == id ==> n == ByteSize(t)
  {
    if id == 0 then assert TypeId(Double) == id; 8
    else if id == 10 then assert TypeId(Float) == id; 4
    else if id == 20 then assert TypeId(Int32) == id; 4
    else if id == 30 then assert TypeId(Int16) == id; 2
    else if id == 40 then assert TypeId(UInt16) == id; 2
    else if id == 50 then assert TypeId(UInt8) == id; 1
    else
      assert forall t :: TypeId(t) != id;
      0
  }

  /** build_format_type_id(). */
  function Build(format: int, dataType: int, matrix: int): int
  {
    format + dataType + matrix
  }

  /** decompose_format_type_id(x): the thousands, then the tens of what is
   *  left, then the rest, each with C++'s truncating division. Building the
   *  three parts back always gives x. */
  function Decomposed(x: int): (ids: (int, int, int))
    ensures Build(ids.0, ids.1, ids.2) == x
  {
    var format := 1000 * TruncDiv(x, 1000);
    var rest := x - format;
    var dataType := 10 * TruncDiv(rest, 10);
    (format, dataType, rest - dataType)
  }

  /** Decomposing a built id restores the three parts when the format is a
   *  non-negative multiple of 1000, the type a multiple of 10 below 1000
   *  and the matrix type below 10, as every id the library uses is. */
  lemma DecomposeBuild(format: int, dataType: int, matrix: int)
    requires format >= 0 && format % 1000 == 0
    requires 0 <= dataType < 1000 && dataType % 10 == 0
    requires 0 <= matrix < 10
    ensures Decomposed(Build(format, dataType, matrix)) == (format, dataType, matrix)
  {
    var x := Build(format, dataType, matrix);
    assert x / 1000 == format / 1000;
    assert (dataType + matrix) / 10 == dataType / 10;
  }

  /** The ids of the library's own formats, types and matrix types are among
   *  those. */
  lemma StandardIds(f: DataFormat, t: DataType, m: MatrixType)
    ensures Decomposed(Build(FormatId(f), TypeId(t), MatrixTypeId(m))) == (FormatId(f), TypeId(t), MatrixTypeId(m))
  {
    DecomposeBuild(FormatId(f), TypeId(t), MatrixTypeId(m));
  }

  // ---------------------------------------------------------------------
  // 32-bit integers as bytes

  function Pow256(n: nat): (p: nat)
    ensures p >= 1
  {
    if n == 0 then 1 else 256 * Pow256(n - 1)
  }

  /** The n least significant bytes of u, least significant first. */
  function LittleEndian(u: nat, n: nat): (bs: seq<Byte>)
    ensures |bs| == n
  {
    if n == 0 then [] else [u % 256] + LittleEndian(u / 256, n - 1)
  }

  /** The number whose least significant bytes are bs. */
  function FromLittleEndian(bs: seq<Byte>): (u: nat)
    ensures u < Pow256(|bs|)
  {
    if |bs| == 0 then 0 else bs[0] + 256 * FromLittleEndian(bs[1..])
  }

  lemma {:induction false} LittleEndianRoundTrip(u: nat, n: nat)
    requires u < Pow256(n)
    ensures FromLittleEndian(LittleEndian(u, n)) == u
  {
    if n > 0 {
      LittleEndianRoundTrip(u / 256, n - 1);
      assert LittleEndian(u, n)[1..] == LittleEndian(u / 256, n - 1);
    }
  }

  /** The four bytes of a 32-bit integer in two's complement. */
  function EncodeInt32(x: int): (bs: seq<Byte>)
    requires IsInt32(x)
    ensures |bs| == 4
  {
    LittleEndian(if x < 0 then x + Two32 else x, 4)
  }

  function DecodeInt32(bs: seq<Byte>): (x: int)
    requires |bs| == 4
    ensures IsInt32(x)
  {
    assert Pow256(4) == Two32;
    var u := FromLittleEndian(bs);
    if u < Two31 then u else u - Two32
  }

  lemma Int32RoundTrip(x: int)
    requires IsInt32(x)
    ensures DecodeInt32(EncodeInt32(x)) == x
  {
    assert Pow256(4) == Two32;
    LittleEndianRoundTrip(if x < 0 then x + Two32 else x, 4);
  }

  // ---------------------------------------------------------------------
  // The byte layout

  /** The values read from or written to a stream, before the format/type
   *  id is split into its parts. */
  datatype Raw = Raw(formatTypeId: int, height: int, width: int, complexFlag: int, name: seq<Byte>)

  /** Values write can put on a stream and read accepts back. */
  predicate Readable(r: Raw)
  {
    && IsInt32(r.formatTypeId) && IsInt32(r.complexFlag)
    && 0 <= r.height < Two31 && 0 <= r.width < Two31
    && |r.name| + 1 < Two31
  }

  /** The bytes write puts on the stream. */
  function Encode(r: Raw): (bs: seq<Byte>)
    requires IsInt32(r.formatTypeId) && IsInt32(r.height) && IsInt32(r.width) && IsInt32(r.complexFlag)
    requires |r.name| + 1 < Two31
    ensures |bs| == 21 + |r.name|
  {
    EncodeInt32(r.formatTypeId) + EncodeInt32(r.height) + EncodeInt32(r.width)
      + EncodeInt32(r.complexFlag) + EncodeInt32(|r.name| + 1) + r.name + [0]
  }

  /** What read makes of a stream: the bytes it reports, and either the
   *  values or io_error. */
  datatype Outcome = Outcome(count: nat, raw: Result<Raw>)

  /** read: each integer is read in turn; a stream that ends early, a
   *  negative number of rows or columns, a name length below 1, a name cut
   *  short or a terminator other than NUL give io_error, reporting four
   *  bytes per integer read before the failure. */
  function Parse(input: seq<Byte>): (o: Outcome)
    ensures o.raw.Err? ==> o.raw.failure == IoError && o.count <= 20
    ensures o.raw.Ok? ==> o.count == 21 + |o.raw.value.name| <= |input| && Readable(o.raw.value)
  {
    if |input| < 4 then Outcome(0, Err(IoError))
    else
      var formatTypeId := DecodeInt32(input[..4]);
      if |input| < 8 then Outcome(4, Err(IoError))
      else
        var height := DecodeInt32(input[4..8]);
        if height < 0 then Outcome(4, Err(IoError))
        else if |input| < 12 then Outcome(8, Err(IoError))
        else
          var width := DecodeInt32(input[8..12]);
          if width < 0 then Outcome(8, Err(IoError))
          else if |input| < 16 then Outcome(12, Err(IoError))
          else
            var complexFlag := DecodeInt32(input[12..16]);
            if |input| < 20 then Outcome(16, Err(IoError))
            else
              var nameLength := DecodeInt32(input[16..20]);
              if nameLength < 1 then Outcome(16, Err(IoError))
              else if |input| < 20 + nameLength - 1 then Outcome(20, Err(IoError))
              else if |input| < 20 + nameLength || input[20 + nameLength - 1] != 0 then Outcome(20, Err(IoError))
              else Outcome(20 + nameLength, Ok(Raw(formatTypeId, height, width, complexFlag, input[20..20 + nameLength - 1])))
  }

  /** The five integers of an encoding, read back. */
  lemma EncodeFields(r: Raw, rest: seq<Byte>)
    requires Readable(r)
    ensures var input := Encode(r) + rest;
      && DecodeInt32(input[..4]) == r.formatTypeId
      && DecodeInt32(input[4..8]) == r.height
      && DecodeInt32(input[8..12]) == r.width
      && DecodeInt32(input[12..16]) == r.complexFlag
      && DecodeInt32(input[16..20]) == |r.name| + 1
      && input[20..20 + |r.name|] == r.name && input[20 + |r.name|] == 0
  {
    var input := Encode(r) + rest;
    Int32RoundTrip(r.formatTypeId);
    Int32RoundTrip(r.height);
    Int32RoundTrip(r.width);
    Int32RoundTrip(r.complexFlag);
    Int32RoundTrip(|r.name| + 1);
    assert input[..4] == EncodeInt32(r.formatTypeId);
    assert input[4..8] == EncodeInt32(r.height);
    assert input[8..12] == EncodeInt32(r.width);
    assert input[12..16] == EncodeInt32(r.complexFlag);
    assert input[16..20] == EncodeInt32(|r.name| + 1);
    assert input[20..20 + |r.name|] == r.name;
  }

  /** Reading what write put on a stream, whatever follows it, gives the
   *  written values back and reports the bytes of the encoding. */
  lemma ParseEncode(r: Raw, rest: seq<Byte>)
    requires Readable(r)
    ensures Parse(Encode(r) + rest) == Outcome(21 + |r.name|, Ok(r))
  {
    EncodeFields(r, rest);
  }

  /** Conversely, read accepts a stream only when it starts with the
   *  encoding of the values it returns. */
  lemma EncodeParse(input: seq<Byte>)
    requires Parse(input).raw.Ok?
    ensures var r := Parse(input).raw.value;
      Readable(r) && input[..21 + |r.name|] == Encode(r)
  {
    var r := Parse(input).raw.value;
    ParsedFields(input, r);
    DecodeEncodeInt32(input[..4]);
    DecodeEncodeInt32(input[4..8]);
    DecodeEncodeInt32(input[8..12]);
    DecodeEncodeInt32(input[12..16]);
    DecodeEncodeInt32(input[16..20]);
    Reassemble(input, |r.name|);
  }

  /** Where read found each value. */
  lemma ParsedFields(input: seq<Byte>, r: Raw)
    requires Parse(input).raw == Ok(r)
    ensures |input| >= 21 + |r.name| && Readable(r)
    ensures DecodeInt32(input[..4]) == r.formatTypeId
    ensures DecodeInt32(input[4..8]) == r.height
    ensures DecodeInt32(input[8..12]) == r.width
    ensures DecodeInt32(input[12..16]) == r.complexFlag
    ensures DecodeInt32(input[16..20]) == |r.name| + 1
    ensures input[20..20 + |r.name|] == r.name && input[20 + |r.name|] == 0
  {
  }

  lemma Reassemble(input: seq<Byte>, n: nat)
    requires |input| >= 21 + n
    ensures input[..21 + n] == input[..4] + input[4..8] + input[8..12] + input[12..16] + input[16..20]
                               + input[20..20 + n] + [input[20 + n]]
  {
  }

  /** Four bytes are the encoding of the integer they decode to. */
  lemma DecodeEncodeInt32(bs: seq<Byte>)
    requires |bs| == 4
    ensures EncodeInt32(DecodeInt32(bs)) == bs
  {
    assert Pow256(4) == Two32;
    FromLittleEndianRoundTrip(bs);
  }

  lemma {:induction false} FromLittleEndianRoundTrip(bs: seq<Byte>)
    ensures LittleEndian(FromLittleEndian(bs), |bs|) == bs
  {
    if |bs| > 0 {
      FromLittleEndianRoundTrip(bs[1..]);
      var u := FromLittleEndian(bs);
      assert u % 256 == bs[0] && u / 256 == FromLittleEndian(bs[1..]);
      assert bs == [bs[0]] + bs[1..];
    }
  }

  // ---------------------------------------------------------------------
  // The header object

  /** The fields of a header. */
  datatype Fields = Fields(
    dataFormatId: int, dataTypeId: int, matrixTypeId: int,
    height: int, width: int, isComplex: bool, name: seq<Byte>)

  /** The fields read sets from the values on the stream. */
  function FromRaw(r: Raw): (f: Fields)
    ensures Build(f.dataFormatId, f.dataTypeId, f.matrixTypeId) == r.formatTypeId
    ensures f.height == r.height && f.width == r.width && f.name == r.name
    ensures f.isComplex <==> r.complexFlag != 0
  {
    var (format, dataType, matrix) := Decomposed(r.formatTypeId);
    Fields(format, dataType, matrix, r.height, r.width, r.complexFlag != 0, r.name)
  }

  /** The values write puts on the stream. */
  function ToRaw(f: Fields): (r: Raw)
    ensures r.formatTypeId == Build(f.dataFormatId, f.dataTypeId, f.matrixTypeId)
    ensures r.height == f.height && r.width == f.width && r.name == f.name
    ensures r.complexFlag == if f.isComplex then 1 else 0
  {
    Raw(Build(f.dataFormatId, f.dataTypeId, f.matrixTypeId), f.height, f.width, if f.isComplex then 1 else 0, f.name)
  }

  /** Writing a header and reading it back restores every field when the
   *  rows and columns are not negative and the ids are the library's; in
   *  any case the combined id, dimensions, flag and name come back. */
  lemma WriteRead(f: Fields, rest: seq<Byte>)
    requires IsInt32(Build(f.dataFormatId, f.dataTypeId, f.matrixTypeId))
    requires 0 <= f.height < Two31 && 0 <= f.width < Two31 && |f.name| + 1 < Two31
    ensures var o := Parse(Encode(ToRaw(f)) + rest);
      && o.count == 21 + |f.name| && o.raw.Ok?
      && var g := FromRaw(o.raw.value);
         && Build(g.dataFormatId, g.dataTypeId, g.matrixTypeId) == Build(f.dataFormatId, f.dataTypeId, f.matrixTypeId)
         && g.height == f.height && g.width == f.width && g.isComplex == f.isComplex && g.name == f.name
         && ((f.dataFormatId >= 0 && f.dataFormatId % 1000 == 0
              && 0 <= f.dataTypeId < 1000 && f.dataTypeId % 10 == 0 && 0 <= f.matrixTypeId < 10) ==> g == f)
  {
    ParseEncode(ToRaw(f), rest);
    if f.dataFormatId >= 0 && f.dataFormatId % 1000 == 0
       && 0 <= f.dataTypeId < 1000 && f.dataTypeId % 10 == 0 && 0 <= f.matrixTypeId < 10 {
      DecomposeBuild(f.dataFormatId, f.dataTypeId, f.matrixTypeId);
    }
  }

  class Mat4Header {
    var dataFormatId: int
    var dataTypeId: int
    var matrixTypeId: int
    var height: int
    var width: int
    var isComplex: bool
    var name: seq<Byte>

    function State(): Fields
      reads this
    {
      Fields(dataFormatId, dataTypeId, matrixTypeId, height, width, isComplex, name)
    }

    /** Every field fits the 32-bit integers it is stored in. */
    ghost predicate Valid()
      reads this
    {
      && IsInt32(Build(dataFormatId, dataTypeId, matrixTypeId))
      && IsInt32(height) && IsInt32(width)
    }

    /** The default header: every id and dimension 0, no name. */
    constructor ()
      ensures State() == Fields(0, 0, 0, 0, 0, false, [])
      ensures Valid()
    {
      dataFormatId, dataTypeId, matrixTypeId := 0, 0, 0;
      height, width, isComplex, name := 0, 0, false, [];
    }

    /** size(): the bytes of the header on a stream. */
    function Size(): nat
      reads this
    {
      5 * 4 + |name| + 1
    }

    /** build_format_type_id(). */
    function FormatTypeId(): int
      reads this
    {
      Build(dataFormatId, dataTypeId, matrixTypeId)
    }

    /** decompose_format_type_id(x). */
    method Decompose(x: int)
      modifies this
      ensures (dataFormatId, dataTypeId, matrixTypeId) == Decomposed(x)
      ensures FormatTypeId() == x
      ensures height == old(height) && width == old(width) && isComplex == old(isComplex) && name == old(name)
    {
      var rest := x;
      dataFormatId := 1000 * TruncDiv(rest, 1000);
      rest := rest - dataFormatId;
      dataTypeId := 10 * TruncDiv(rest, 10);
      rest := rest - dataTypeId;
      matrixTypeId := rest;
    }

    /** initialize(variable_name, mat, data_format, matrix_type_id) for a
     *  matrix of the given element type and dimensions; the dimensions are
     *  cast to 32-bit integers and the imaginary flag is left as it was. */
    method Initialize(variableName: seq<Byte>, elementType: DataType, matrixHeight: nat, matrixWidth: nat,
                      format: DataFormat, matrixType: MatrixType)
      modifies this
      ensures State() == Fields(FormatId(format), TypeId(elementType), MatrixTypeId(matrixType),
                                WrapInt32(matrixHeight), WrapInt32(matrixWidth), old(isComplex), variableName)
      ensures Valid()
    {
      dataFormatId := FormatId(format);
      dataTypeId := TypeId(elementType);
      matrixTypeId := MatrixTypeId(matrixType);
      height := WrapInt32(matrixHeight);
      width := WrapInt32(matrixWidth);
      name := variableName;
    }

    /** read(filestream, ec): `ready` says whether the stream is open and has
     *  not failed, `input` holds the bytes it can deliver. On success the
     *  fields are set and the header size is returned; on failure io_error is
     *  set, nothing changes and four bytes per integer read are reported. */
    method Read(ready: bool, input: seq<Byte>) returns (count: nat, ec: Option<Failure>)
      requires Valid()
      modifies this
      ensures Valid()
      ensures !ready ==> count == 0 && ec == Some(IoError) && State() == old(State())
      ensures ready ==> var o := Parse(input);
        && count == o.count
        && (o.raw.Err? ==> ec == Some(IoError) && State() == old(State()))
        && (o.raw.Ok? ==> ec == None && State() == FromRaw(o.raw.value))
    {
      if !ready {
        return 0, Some(IoError);
      }
      var blocks := 0;
      if |input| < 4 {
        return 4 * blocks, Some(IoError);
      }
      var formatTypeId := DecodeInt32(input[..4]);
      blocks := blocks + 1;
      if |input| < 8 {
        return 4 * blocks, Some(IoError);
      }
      var rows := DecodeInt32(input[4..8]);
      if rows < 0 {
        return 4 * blocks, Some(IoError);
      }
      blocks := blocks + 1;
      if |input| < 12 {
        return 4 * blocks, Some(IoError);
      }
      var columns := DecodeInt32(input[8..12]);
      if columns < 0 {
        return 4 * blocks, Some(IoError);
      }
      blocks := blocks + 1;
      if |input| < 16 {
        return 4 * blocks, Some(IoError);
      }
      var complexFlag := DecodeInt32(input[12..16]);
      blocks := blocks + 1;
      if |input| < 20 {
        return 4 * blocks, Some(IoError);
      }
      var nameLength := DecodeInt32(input[16..20]);
      if nameLength < 1 {
        return 4 * blocks, Some(IoError);
      }
      blocks := blocks + 1;
      if |input| < 20 + nameLength - 1 {
        return 4 * blocks, Some(IoError);
      }
      var textData := input[20..20 + nameLength - 1];
      if |input| < 20 + nameLength || input[20 + nameLength - 1] != 0 {
        return 4 * blocks, Some(IoError);
      }
      Decompose(formatTypeId);
      height := rows;
      width := columns;
      isComplex := complexFlag != 0;
      name := textData;
      return Size(), None;
    }

    /** write(filestream, ec): `ready` says whether the stream is open and
     *  has not failed. The bytes put on the stream are returned with the
     *  count write reports. */
    method Write(ready: bool) returns (written: seq<Byte>, count: nat, ec: Option<Failure>)
      requires Valid() && |name| + 1 < Two31
      ensures !ready ==> written == [] && count == 0 && ec == Some(IoError)
      ensures ready ==> written == Encode(ToRaw(State())) && count == Size() && ec == None
    {
      if !ready {
        return [], 0, Some(IoError);
      }
      var formatTypeId := FormatTypeId();
      var complexFlag := if isComplex then 1 else 0;
      var nameLength := WrapInt32(|name| + 1);
      written := EncodeInt32(formatTypeId);
      written := written + EncodeInt32(height);
      written := written + EncodeInt32(width);
      written := written + EncodeInt32(complexFlag);
      written := written + EncodeInt32(nameLength);
      written := written + name[..nameLength - 1];
      written := written + [0];
      return written, Size(), None;
    }
  }
}
