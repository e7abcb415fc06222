/**
 * The SQL-to-BigQuery value converter: convertValue and its helpers, and
 * ParseDynamicRow, which rewrites a scanned row in place, column by column.
 */
module Parser {
  import opened Wrappers
  import opened Utf8
  import Decimal
  import GoTime

  type int8 = x: int | -0x80 <= x < 0x80
  type int16 = x: int | -0x8000 <= x < 0x8000
  type int32 = x: int | -0x8000_0000 <= x < 0x8000_0000
  type int64 = x: int | -0x8000_0000_0000_0000 <= x < 0x8000_0000_0000_0000
  type uint8 = x: int | 0 <= x < 0x100
  type uint16 = x: int | 0 <= x < 0x1_0000
  type uint32 = x: int | 0 <= x < 0x1_0000_0000
  type uint64 = x: int | 0 <= x < 0x1_0000_0000_0000_0000

  /** math.MaxInt64, the largest value of BigQuery's INT64. */
  const MaxInt64: int := 0x7FFF_FFFF_FFFF_FFFF

  /**
   * A Go value held in an `any`, by dynamic type. Go's int and uint are taken
   * to be 64 bits wide. Floating-point values are kept as their IEEE bit
   * patterns; a value of any other type is an opaque handle.
   */
  datatype GoValue =
    | Nil
    | Bytes(bytes: seq<byte>)
    | Str(bytes: seq<byte>)
    | Time(time: GoTime.Time)
    | Int64(i64: int64)
    | Int32(i32: int32)
    | Int16(i16: int16)
    | Int8(i8: int8)
    | Int(i: int64)
    | Uint64(u64: uint64)
    | Uint(u: uint64)
    | Uint32(u32: uint32)
    | Uint16(u16: uint16)
    | Uint8(u8: uint8)
    | Float64(f64: bv64)
    | Float32(f32: bv32)
    | Bool(b: bool)
    | Unknown(handle: nat)

  predicate IsUnsigned(v: GoValue) {
    v.Uint64? || v.Uint? || v.Uint32? || v.Uint16? || v.Uint8?
  }

  /** The number an unsigned value holds. */
  function UnsignedValue(v: GoValue): uint64
    requires IsUnsigned(v)
  {
    match v
    case Uint64(u) => u
    case Uint(u) => u
    case Uint32(u) => u
    case Uint16(u) => u
    case Uint8(u) => u
  }

  predicate IsSigned(v: GoValue) {
    v.Int64? || v.Int32? || v.Int16? || v.Int8? || v.Int?
  }

  /**
   * A value BigQuery's client accepts as it is: nil, a string, a signed
   * integer, a float or a bool.
   */
  predicate IsBigQueryValue(v: GoValue) {
    v.Nil? || v.Str? || IsSigned(v) || v.Float64? || v.Float32? || v.Bool?
  }

  /**
   * The library formatters the converter calls, left uninterpreted:
   * time.Time.Format with a caller-given layout, time.Time.Format with
   * time.RFC3339Nano, and fmt.Sprintf("%v") of a value of an unlisted type.
   */
  datatype Formatters = Formatters(
    layout: (GoTime.Time, seq<byte>) -> seq<byte>,
    rfc3339Nano: GoTime.Time -> seq<byte>,
    verb: nat -> seq<byte>)

  /**
   * formatTimeForBigQuery. The zero time is nil; a non-empty dateFormat
   * formats a value that falls on a day boundary of its own location with that
   * layout; everything else is an RFC 3339 timestamp with nanoseconds, in UTC.
   */
  function FormatTimeForBigQuery(t: GoTime.Time, dateFormat: seq<byte>, fmts: Formatters): (r: GoValue)
    ensures r.Nil? || r.Str?
    ensures r.Nil? <==> GoTime.IsZero(t)
    ensures !GoTime.IsZero(t) && dateFormat != [] && GoTime.Local(t) % 86400 == 0 && t.nsec == 0 ==>
              r == Str(fmts.layout(t, dateFormat))
    ensures !GoTime.IsZero(t) && (dateFormat == [] || GoTime.Local(t) % 86400 != 0 || t.nsec != 0) ==>
              r == Str(fmts.rfc3339Nano(GoTime.UTC(t)))
  {
    GoTime.MidnightIffDayBoundary(t);
    if GoTime.IsZero(t) then Nil
    else if GoTime.Hour(t) == 0 && GoTime.Minute(t) == 0 && GoTime.Second(t) == 0
         && GoTime.Nanosecond(t) == 0 && dateFormat != [] then
      Str(fmts.layout(t, dateFormat))
    else
      Str(fmts.rfc3339Nano(GoTime.UTC(t)))
  }

  /**
   * The zero time read in UTC passes every clause of the date-only test, so
   * it is the zero test, made first, that turns it into NULL.
   */
  lemma ZeroTestComesFirst(t: GoTime.Time, dateFormat: seq<byte>, fmts: Formatters)
    requires GoTime.IsZero(t) && t.offset == 0 && dateFormat != []
    ensures GoTime.IsMidnight(t) && FormatTimeForBigQuery(t, dateFormat, fmts) == Nil
  {
    GoTime.ZeroIsMidnightInUTC(t);
    assert GoTime.UTC(t) == t;
  }

  /**
   * safeUintToBigQuery. A value that fits INT64 becomes that INT64; a larger
   * one becomes its decimal text, which reads back as the same number.
   */
  function SafeUintToBigQuery(v: uint64): (r: GoValue)
    ensures r.Int64? <==> v <= MaxInt64
    ensures r.Int64? ==> r.i64 == v
    ensures !r.Int64? ==> r.Str? && Decimal.Parse(r.bytes) == Some(v as nat) && |r.bytes| == 19 + (if v >= 10_000_000_000_000_000_000 then 1 else 0)
  {
    if v > MaxInt64 then
      Decimal.ParseFormat(v);
      OverflowDigits(v);
      Str(Decimal.Format(v))
    else
      Int64(v)
  }

  /** Values above MaxInt64 have 19 decimal digits, or 20 from 10^19 on. */
  lemma OverflowDigits(v: uint64)
    requires v > MaxInt64
    ensures |Decimal.Format(v)| == 19 + (if v >= 10_000_000_000_000_000_000 then 1 else 0)
  {
    Decimal.Pow10Wide();
    if v >= 10_000_000_000_000_000_000 {
      Decimal.FormatLength(v, 20);
    } else {
      Decimal.FormatLength(v, 19);
    }
  }

  /**
   * The []byte and string cases of convertValue: valid UTF-8 is kept byte for
   * byte, anything else is sanitised.
   */
  function TextToBigQuery(s: seq<byte>): (r: GoValue)
    ensures r.Str? && Valid(r.bytes) && |r.bytes| <= |s|
    ensures Valid(s) ==> r.bytes == s
    ensures !Valid(s) ==> r.bytes == Sanitize(s)
  {
    if !Valid(s) then Str(Sanitize(s)) else Str(s)
  }

  /**
   * The numeric and boolean cases of convertValue: signed integers, floats
   * and bools pass through, unsigned integers go to INT64 when they fit.
   */
  function NumberToBigQuery(val: GoValue): (r: GoValue)
    requires IsSigned(val) || IsUnsigned(val) || val.Float64? || val.Float32? || val.Bool?
    ensures IsBigQueryValue(r) && !r.Nil?
    ensures IsSigned(val) || val.Bool? || val.Float64? || val.Float32? ==> r == val
    ensures IsUnsigned(val) && UnsignedValue(val) <= MaxInt64 ==> r == Int64(UnsignedValue(val))
    ensures IsUnsigned(val) && UnsignedValue(val) > MaxInt64 ==>
              r.Str? && Decimal.Parse(r.bytes) == Some(UnsignedValue(val) as nat)
    ensures val.Uint64? || val.Uint? ==> r == SafeUintToBigQuery(UnsignedValue(val))
  {
    match val
    case Uint64(u) => SafeUintToBigQuery(u)
    case Uint(u) => SafeUintToBigQuery(u)
    case Uint32(u) => Int64(u)
    case Uint16(u) => Int64(u)
    case Uint8(u) => Int64(u)
    case _ => val
  }

  /**
   * convertValue: the value handed to BigQuery for one scanned column value.
   */
  function ConvertValue(val: GoValue, dateFormat: seq<byte>, fmts: Formatters): (r: GoValue)
    ensures IsBigQueryValue(r)
    ensures r.Nil? <==> val.Nil? || (val.Time? && GoTime.IsZero(val.time))
    ensures val.Bytes? || val.Str? ==> r == TextToBigQuery(val.bytes)
    ensures IsSigned(val) || val.Bool? || val.Float64? || val.Float32? ==> r == val
    ensures IsUnsigned(val) && UnsignedValue(val) <= MaxInt64 ==> r == Int64(UnsignedValue(val))
    ensures IsUnsigned(val) && UnsignedValue(val) > MaxInt64 ==>
              r.Str? && Decimal.Parse(r.bytes) == Some(UnsignedValue(val) as nat)
    ensures val.Uint64? || val.Uint? ==> r == SafeUintToBigQuery(UnsignedValue(val))
    ensures val.Time? ==> r == FormatTimeForBigQuery(val.time, dateFormat, fmts)
    ensures val.Unknown? ==> r == Str(fmts.verb(val.handle))
  {
    match val
    case Nil => Nil
    case Bytes(b) => TextToBigQuery(b)
    case Str(s) => TextToBigQuery(s)
    case Time(t) => FormatTimeForBigQuery(t, dateFormat, fmts)
    case Unknown(h) => Str(fmts.verb(h))
    case _ => NumberToBigQuery(val)
  }

  /**
   * The values the converter leaves alone are exactly the BigQuery values
   * whose strings, if any, are valid UTF-8.
   */
  lemma ConvertFixedPoints(val: GoValue, dateFormat: seq<byte>, fmts: Formatters)
    ensures ConvertValue(val, dateFormat, fmts) == val <==> IsBigQueryValue(val) && (val.Str? ==> Valid(val.bytes))
  {
  }

  /**
   * Converting a converted value again changes nothing, unless a library
   * formatter produced invalid UTF-8.
   */
  lemma ConvertIdempotent(val: GoValue, dateFormat: seq<byte>, fmts: Formatters)
    requires ConvertValue(val, dateFormat, fmts).Str? ==> Valid(ConvertValue(val, dateFormat, fmts).bytes)
    ensures ConvertValue(ConvertValue(val, dateFormat, fmts), dateFormat, fmts) == ConvertValue(val, dateFormat, fmts)
  {
    ConvertFixedPoints(ConvertValue(val, dateFormat, fmts), dateFormat, fmts);
  }

  /** Every string the converter builds from the model's own inputs is valid UTF-8. */
  lemma ConvertedStringsValid(val: GoValue, dateFormat: seq<byte>, fmts: Formatters)
    requires !val.Time? && !val.Unknown?
    ensures ConvertValue(val, dateFormat, fmts).Str? ==> Valid(ConvertValue(val, dateFormat, fmts).bytes)
  {
    if val.Uint64? && val.u64 > MaxInt64 {
      Decimal.FormatValid(val.u64);
    } else if val.Uint? && val.u > MaxInt64 {
      Decimal.FormatValid(val.u);
    }
  }

  /** The row handed to BigQuery: column names and converted values, position by position. */
  datatype DynamicRow = DynamicRow(columnNames: seq<seq<byte>>, values: seq<GoValue>)

  /** Scan failures: the driver's own error, or a destination count that does not match the row. */
  datatype ScanError = DriverError(message: seq<byte>) | ArgumentCount(expected: nat, given: nat)

  /** The two error returns of ParseDynamicRow, each wrapping its cause. */
  datatype RowError = ColumnsFailed(cause: seq<byte>) | ScanFailed(scanCause: ScanError)

  /**
   * ParseDynamicRow. `columns` is what rows.Columns() returned and `scanned`
   * what the driver holds for the current row. The values are scanned into a
   * fresh array of one slot per column, which is then rewritten in place by
   * ConvertValue.
   */
  method ParseDynamicRow(columns: Result<seq<seq<byte>>, seq<byte>>, scanned: Result<seq<GoValue>, seq<byte>>,
                         dateFormat: seq<byte>, fmts: Formatters)
    returns (r: Result<DynamicRow, RowError>)
    ensures columns.Failure? ==> r == Failure(ColumnsFailed(columns.error))
    ensures columns.Success? && scanned.Failure? ==> r == Failure(ScanFailed(DriverError(scanned.error)))
    ensures columns.Success? && scanned.Success? && |scanned.value| != |columns.value| ==>
              r == Failure(ScanFailed(ArgumentCount(|scanned.value|, |columns.value|)))
    ensures r.Success? <==> columns.Success? && scanned.Success? && |scanned.value| == |columns.value|
    ensures r.Success? ==> r.value.columnNames == columns.value
    ensures r.Success? ==> |r.value.values| == |columns.value|
    ensures r.Success? ==> forall i :: 0 <= i < |r.value.values| ==>
              r.value.values[i] == ConvertValue(scanned.value[i], dateFormat, fmts)
  {
    if columns.Failure? {
      return Failure(ColumnsFailed(columns.error));
    }
    var names := columns.value;
    var values := new GoValue[|names|](_ => Nil);

    // rows.Scan through one pointer per slot
    if scanned.Failure? {
      return Failure(ScanFailed(DriverError(scanned.error)));
    }
    var row := scanned.value;
    if |row| != values.Length {
      return Failure(ScanFailed(ArgumentCount(|row|, values.Length)));
    }
    forall i | 0 <= i < values.Length {
      values[i] := row[i];
    }

    for i := 0 to values.Length
      invariant forall k :: 0 <= k < i ==> values[k] == ConvertValue(row[k], dateFormat, fmts)
      invariant forall k :: i <= k < values.Length ==> values[k] == row[k]
    {
      values[i] := ConvertValue(values[i], dateFormat, fmts);
    }

    return Success(DynamicRow(names, values[..]));
  }
}
