/**
  QueryResultRow: one materialised record, a map from column name to the
  value the driver returned, with typed accessors that coerce a stored value
  by a fixed type-dispatch rule. The map is fixed when the row is built and
  no accessor changes it, so the row is a value and every accessor a function.
 */
module QueryRow {
  import opened Values

  /** A column name as a caller or the materialiser passes it; None is Java's null. */
  type Column = Option<string>

  datatype Row = Row(data: map<Column, Value>)

  /** `hasColumn`: whether the map has the key, whatever (even null) it holds. */
  function HasColumn(row: Row, column: Column): (b: bool)
    ensures b <==> column in row.data
  {
    column in row.data
  }

  /** `get`: the stored value, or null when the key is absent (HashMap.get). */
  function Get(row: Row, column: Column): (v: Value)
    ensures HasColumn(row, column) ==> v == row.data[column]
    ensures !HasColumn(row, column) ==> v == Null
  {
    if column in row.data then row.data[column] else Null
  }

  /**
    `asString`: "null" for an absent or null value, the string itself for a
    String (String.toString returns the receiver), and otherwise the value's
    toString, which is library behaviour and so is the parameter `show`.
   */
  function AsString(row: Row, column: Column, show: Value -> string): (s: string)
    ensures Get(row, column) == Null ==> s == "null"
    ensures Get(row, column).Str? ==> s == Get(row, column).s
    ensures !Get(row, column).Null? && !Get(row, column).Str? ==> s == show(Get(row, column))
  {
    match Get(row, column)
    case Null => "null"
    case Str(text) => text
    case v => show(v)
  }

  /** `isNumber`: `get(column) instanceof Number`. */
  function IsNumber(row: Row, column: Column): (b: bool)
    ensures b <==> Get(row, column).Int?
    ensures b ==> HasColumn(row, column)
  {
    Get(row, column).Int?
  }

  /**
    `asNumber`: the cast `(Number) get(column)`. A null reference casts to
    null (Ok(None)); a number casts to itself; anything else fails.
   */
  function AsNumber(row: Row, column: Column): (r: Result<Option<Int64>>)
    ensures r == Ok(None) <==> Get(row, column) == Null
    ensures IsNumber(row, column) <==> r.Ok? && r.value.Some?
    ensures IsNumber(row, column) ==> r.value.value == Get(row, column).n
    ensures r.Err? <==> !IsNumber(row, column) && Get(row, column) != Null
    ensures r.Err? ==> r.error == ClassCastException
  {
    match Get(row, column)
    case Null => Ok(None)
    case Int(n) => Ok(Some(n))
    case _ => Err(ClassCastException)
  }

  /**
    `Number.byteValue()` of an integral number: the narrowing to a signed
    8-bit value, which keeps the low eight bits.
   */
  function ByteValue(n: int): (b: int)
    ensures -128 <= b < 128
    ensures (n - b) % 256 == 0
  {
    var low := n % 256;
    if low < 128 then low else low - 256
  }

  function ToUpperAscii(c: char): char
  {
    if 'a' <= c <= 'z' then (c as int - 32) as char else c
  }

  function ToLowerAscii(c: char): char
  {
    if 'A' <= c <= 'Z' then (c as int + 32) as char else c
  }

  /** The per-character test of String.regionMatches with ignoreCase set. */
  predicate CharsEqualIgnoreCase(a: char, b: char)
  {
    a == b
    || ToUpperAscii(a) == ToUpperAscii(b)
    || ToLowerAscii(ToUpperAscii(a)) == ToLowerAscii(ToUpperAscii(b))
  }

  /** `String.equalsIgnoreCase`, with the case mapping of ASCII letters. */
  predicate EqualsIgnoreCase(s: string, t: string)
  {
    |s| == |t| && forall i :: 0 <= i < |s| ==> CharsEqualIgnoreCase(s[i], t[i])
  }

  /** The sixteen spellings of "true" in upper and lower case. */
  predicate SpellsTrue(s: string)
  {
    && |s| == 4
    && (s[0] == 't' || s[0] == 'T')
    && (s[1] == 'r' || s[1] == 'R')
    && (s[2] == 'u' || s[2] == 'U')
    && (s[3] == 'e' || s[3] == 'E')
  }

  /** Comparing against "true" ignoring case accepts exactly its sixteen spellings. */
  lemma EqualsTrueIgnoringCase(s: string)
    ensures EqualsIgnoreCase(s, "true") <==> SpellsTrue(s)
  {
  }

  /**
    `asBoolean`: a Boolean is itself; a number is true iff its byteValue is 1,
    that is iff its low byte is 1; a string is true iff it is "1" or "true" in
    any case; null, an absent key and every other kind are false.
   */
  function AsBoolean(row: Row, column: Column): (b: bool)
    ensures Get(row, column).Bool? ==> (b <==> Get(row, column).b)
    ensures Get(row, column).Int? ==> (b <==> Get(row, column).n % 256 == 1)
    ensures Get(row, column).Str? ==>
              (b <==> Get(row, column).s == "1" || SpellsTrue(Get(row, column).s))
    ensures Get(row, column).Null? || Get(row, column).Ts? || Get(row, column).Other? ==> !b
  {
    match Get(row, column)
    case Bool(x) => x
    case Int(n) => ByteValue(n) == 1
    case Str(s) => s == "1" || EqualsIgnoreCase(s, "true")
    case _ => false
  }

  /**
    `getTimestamp`: a number is read as epoch milliseconds (its longValue),
    a Timestamp is returned as it is, a string goes to Timestamp.valueOf
    (the parameter `parse`; None means it threw IllegalArgumentException),
    and every other value, null and an absent key give null, not an error.
   */
  function GetTimestamp(row: Row, column: Column, parse: string -> Option<Timestamp>)
    : (r: Result<Option<Timestamp>>)
    ensures Get(row, column).Int? ==> r == Ok(Some(Timestamp(Get(row, column).n)))
    ensures Get(row, column).Ts? ==> r == Ok(Some(Get(row, column).t))
    ensures Get(row, column).Str? && parse(Get(row, column).s).Some? ==>
              r == Ok(Some(parse(Get(row, column).s).value))
    ensures r.Err? <==> Get(row, column).Str? && parse(Get(row, column).s) == None
    ensures r.Err? ==> r.error == IllegalArgumentException
    ensures r == Ok(None) <==> Get(row, column).Null? || Get(row, column).Bool? || Get(row, column).Other?
  {
    match Get(row, column)
    case Int(n) => Ok(Some(Timestamp(n)))
    case Ts(t) => Ok(Some(t))
    case Str(s) =>
      (match parse(s)
       case Some(t) => Ok(Some(t))
       case None => Err(IllegalArgumentException))
    case _ => Ok(None)
  }

  // ---------------------------------------------------------------------
  // Properties of the accessors

  /** A key absent from the row reads as null through every accessor. */
  lemma AbsentColumn(row: Row, column: Column, show: Value -> string, parse: string -> Option<Timestamp>)
    requires !HasColumn(row, column)
    ensures Get(row, column) == Null
    ensures AsString(row, column, show) == "null"
    ensures !IsNumber(row, column) && AsNumber(row, column) == Ok(None)
    ensures !AsBoolean(row, column)
    ensures GetTimestamp(row, column, parse) == Ok(None)
  {
  }

  /**
    `isNumber` holds exactly for a key that is present and holds a number,
    and then `asNumber` returns that stored number.
   */
  lemma IsNumberReadsStoredNumber(row: Row, column: Column)
    ensures IsNumber(row, column) <==> HasColumn(row, column) && row.data[column].Int?
    ensures IsNumber(row, column) ==> AsNumber(row, column) == Ok(Some(row.data[column].n))
  {
  }

  /** For a number in byte range, `asBoolean` is true iff the number is exactly 1. */
  lemma {:induction false} AsBooleanInByteRange(row: Row, column: Column)
    requires Get(row, column).Int? && -128 <= Get(row, column).n < 128
    ensures AsBoolean(row, column) <==> Get(row, column).n == 1
  {
    var n := Get(row, column).n;
    if n < 0 {
      assert n % 256 == n + 256;
    }
  }

  /** `asBoolean` on 257 is true although 257 is not "equal to exactly 1". */
  lemma AsBooleanOfIntPast255()
    ensures AsBoolean(Row(map[Some("n") := Int(257)]), Some("n"))
    ensures AsBoolean(Row(map[Some("n") := Int(-255)]), Some("n"))
  {
  }

  /** Examples: "TRUE" is true, "0" is false. */
  lemma AsBooleanOfStrings()
    ensures AsBoolean(Row(map[Some("active") := Str("TRUE")]), Some("active"))
    ensures !AsBoolean(Row(map[Some("active") := Str("0")]), Some("active"))
    ensures !AsBoolean(Row(map[Some("active") := Str("yes")]), Some("active"))
  {
  }

  /** Example: the number 1000 reads as the timestamp one second past the epoch. */
  lemma GetTimestampOfMillis(parse: string -> Option<Timestamp>)
    ensures GetTimestamp(Row(map[Some("ts") := Int(1000)]), Some("ts"), parse) == Ok(Some(Timestamp(1000)))
  {
  }
}
