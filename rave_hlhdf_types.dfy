/**
 * The translation between the toolkit's data types and the HLHDF format
 * specifiers of the HDF5 exchange format (rave_hlhdf_utilities.c): a constant
 * table scanned in order up to its end marker, by type and by specifier.
 */
module RaveHlhdfTypes {

  /** The toolkit's element types (RaveDataType). */
  datatype RaveDataType = Undefined | Char | UChar | Short | Int | Long | Float | Double

  /** The HLHDF format specifiers, in the order of their enumeration. */
  datatype HlFormat =
    | HlUndefined | HlChar | HlSChar | HlUChar | HlShort | HlUShort
    | HlInt | HlUInt | HlLong | HlULong | HlLLong | HlULLong
    | HlFloat | HlDouble | HlLDouble | HlHSize | HlHSSize | HlHErr
    | HlHBool | HlString | HlCompound | HlArray | HlEnd

  /** The position of a specifier in its enumeration; the range tests on formats compare these. */
  function Ordinal(f: HlFormat): (n: nat)
    ensures n <= 22
  {
    match f
    case HlUndefined => 0 case HlChar => 1 case HlSChar => 2 case HlUChar => 3
    case HlShort => 4 case HlUShort => 5 case HlInt => 6 case HlUInt => 7
    case HlLong => 8 case HlULong => 9 case HlLLong => 10 case HlULLong => 11
    case HlFloat => 12 case HlDouble => 13 case HlLDouble => 14 case HlHSize => 15
    case HlHSSize => 16 case HlHErr => 17 case HlHBool => 18 case HlString => 19
    case HlCompound => 20 case HlArray => 21 case HlEnd => 22
  }

  /** Distinct specifiers have distinct positions. */
  lemma OrdinalInjective(f: HlFormat, g: HlFormat)
    requires Ordinal(f) == Ordinal(g)
    ensures f == g
  {
  }

  /** One row of the translation table. */
  datatype Entry = Entry(hl: HlFormat, rave: RaveDataType)

  /** The translation table, ending with its end marker. */
  const TypeMap: seq<Entry> := [
    Entry(HlUndefined, Undefined),
    Entry(HlChar, Char),
    Entry(HlSChar, Char),
    Entry(HlUChar, UChar),
    Entry(HlShort, Short),
    Entry(HlUShort, Short),
    Entry(HlInt, Int),
    Entry(HlUInt, Int),
    Entry(HlLong, Long),
    Entry(HlULong, Long),
    Entry(HlLLong, Undefined),
    Entry(HlULLong, Undefined),
    Entry(HlFloat, Float),
    Entry(HlDouble, Double),
    Entry(HlLDouble, Undefined),
    Entry(HlHSize, Undefined),
    Entry(HlHSSize, Undefined),
    Entry(HlHErr, Undefined),
    Entry(HlHBool, Undefined),
    Entry(HlString, Undefined),
    Entry(HlCompound, Undefined),
    Entry(HlArray, Undefined),
    Entry(HlEnd, Undefined)
  ]

  /**
   * Row i of the table holds the i-th specifier of the enumeration with its
   * merged type; the end marker is the last row.
   */
  lemma TableRow(i: nat)
    requires i < |TypeMap|
    ensures Ordinal(TypeMap[i].hl) == i
    ensures TypeMap[i].hl == HlEnd <==> i == 22
    ensures TypeMap[i].rave == TypeOfFormat(TypeMap[i].hl)
  {
    if i < 12 {
      LowerRow(i);
    } else {
      UpperRow(i);
    }
  }

  /** The rows of the integer specifiers. */
  lemma LowerRow(i: nat)
    requires i < 12
    ensures Ordinal(TypeMap[i].hl) == i && TypeMap[i].hl != HlEnd
    ensures TypeMap[i].rave == TypeOfFormat(TypeMap[i].hl)
  {
  }

  /** The rows from HLHDF_FLOAT to the end marker. */
  lemma UpperRow(i: nat)
    requires 12 <= i < |TypeMap|
    ensures Ordinal(TypeMap[i].hl) == i
    ensures TypeMap[i].hl == HlEnd <==> i == 22
    ensures TypeMap[i].rave == TypeOfFormat(TypeMap[i].hl)
  {
  }

  /** The scan of the table for a toolkit type, from row i on. */
  function RaveToHlhdfFrom(t: RaveDataType, i: nat): HlFormat
    decreases |TypeMap| - i
  {
    if i >= |TypeMap| || TypeMap[i].hl == HlEnd then HlUndefined
    else if TypeMap[i].rave == t then TypeMap[i].hl
    else RaveToHlhdfFrom(t, i + 1)
  }

  /** The scan of the table for a specifier, from row i on. */
  function HlhdfToRaveFrom(f: HlFormat, i: nat): RaveDataType
    decreases |TypeMap| - i
  {
    if i >= |TypeMap| || TypeMap[i].hl == HlEnd then Undefined
    else if TypeMap[i].hl == f then TypeMap[i].rave
    else HlhdfToRaveFrom(f, i + 1)
  }

  /**
   * RaveHL_raveToHlhdfType: the specifier of the first row holding t,
   * HLHDF_UNDEFINED when none does. The scan agrees with the per-type
   * translation for every type.
   */
  function RaveToHlhdfType(t: RaveDataType): (r: HlFormat)
    ensures r == PreferredFormat(t)
  {
    RaveToHlhdfPrefix(t, 0);
    RaveToHlhdfFrom(t, 0)
  }

  /**
   * RaveHL_hlhdfToRaveType: the type of the first row holding f, UNDEFINED
   * when none does. The lookup agrees with the per-specifier translation for
   * every specifier, the end marker included.
   */
  function HlhdfToRaveType(f: HlFormat): (r: RaveDataType)
    ensures r == TypeOfFormat(f)
  {
    HlhdfToRaveSuffix(f, 0);
    HlhdfToRaveFrom(f, 0)
  }

  /** The translation by type written out per type: each type has one preferred specifier. */
  function PreferredFormat(t: RaveDataType): HlFormat {
    match t
    case Undefined => HlUndefined
    case Char => HlChar
    case UChar => HlUChar
    case Short => HlShort
    case Int => HlInt
    case Long => HlLong
    case Float => HlFloat
    case Double => HlDouble
  }

  /**
   * The lookup by specifier written out per specifier: signed and unsigned
   * variants merge, and the specifiers without a toolkit type are undefined.
   */
  function TypeOfFormat(f: HlFormat): RaveDataType {
    match f
    case HlChar | HlSChar => Char
    case HlUChar => UChar
    case HlShort | HlUShort => Short
    case HlInt | HlUInt => Int
    case HlLong | HlULong => Long
    case HlFloat => Float
    case HlDouble => Double
    case _ => Undefined
  }

  /** Every specifier comes no earlier than the preferred specifier of its type. */
  lemma PreferredComesFirst(f: HlFormat)
    ensures Ordinal(PreferredFormat(TypeOfFormat(f))) <= Ordinal(f)
  {
  }

  /** Before the row of its preferred specifier, the scan for t has not yet met t. */
  lemma {:induction false} RaveToHlhdfPrefix(t: RaveDataType, i: nat)
    requires i <= Ordinal(PreferredFormat(t))
    ensures RaveToHlhdfFrom(t, i) == PreferredFormat(t)
    decreases 22 - i
  {
    TableRow(i);
    if i < Ordinal(PreferredFormat(t)) {
      if TypeMap[i].rave == t {
        PreferredComesFirst(TypeMap[i].hl);
        assert false;
      }
      RaveToHlhdfPrefix(t, i + 1);
    } else {
      assert TypeOfFormat(PreferredFormat(t)) == t;
      OrdinalInjective(TypeMap[i].hl, PreferredFormat(t));
    }
  }

  /** From any row on, the scan finds the row of f (rows are distinct), or reaches the end marker. */
  lemma {:induction false} HlhdfToRaveSuffix(f: HlFormat, i: nat)
    requires i <= 22
    ensures HlhdfToRaveFrom(f, i) == if f != HlEnd && Ordinal(f) >= i then TypeOfFormat(f) else Undefined
    decreases 22 - i
  {
    TableRow(i);
    if i < 22 && TypeMap[i].hl != f {
      HlhdfToRaveSuffix(f, i + 1);
      if f != HlEnd && Ordinal(f) == i {
        OrdinalInjective(f, TypeMap[i].hl);
      }
    } else if i < 22 {
      OrdinalInjective(f, TypeMap[i].hl);
    }
  }

  /** Round trip: translating a type to HLHDF and back gives the type again, for every type. */
  lemma RaveHlhdfRoundTrip(t: RaveDataType)
    ensures HlhdfToRaveType(RaveToHlhdfType(t)) == t
  {
  }

  /** Translating back then forth lands on the preferred specifier of the merged type. */
  lemma HlhdfRaveCanonical(f: HlFormat)
    ensures RaveToHlhdfType(HlhdfToRaveType(f)) == PreferredFormat(TypeOfFormat(f))
    ensures TypeOfFormat(f) != Undefined ==> HlhdfToRaveType(RaveToHlhdfType(HlhdfToRaveType(f))) == HlhdfToRaveType(f)
  {
    RaveHlhdfRoundTrip(TypeOfFormat(f));
  }

  /** The integer specifiers RaveHL_createAttribute reads as a long (HLHDF_SCHAR to HLHDF_ULLONG). */
  predicate IsIntegerFormat(f: HlFormat) {
    Ordinal(HlSChar) <= Ordinal(f) <= Ordinal(HlULLong)
  }

  /** The floating-point specifiers RaveHL_createAttribute reads as a double (HLHDF_FLOAT to HLHDF_LDOUBLE). */
  predicate IsRealFormat(f: HlFormat) {
    Ordinal(HlFloat) <= Ordinal(f) <= Ordinal(HlLDouble)
  }

  /** The integer range starts at HLHDF_SCHAR, so a plain HLHDF_CHAR node is not read as a number. */
  lemma IntegerFormats(f: HlFormat)
    ensures IsIntegerFormat(f) <==> f in {HlSChar, HlUChar, HlShort, HlUShort, HlInt, HlUInt, HlLong, HlULong, HlLLong, HlULLong}
    ensures IsRealFormat(f) <==> f in {HlFloat, HlDouble, HlLDouble}
  {
  }
}
