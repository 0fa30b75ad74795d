/**
  Types shared by the model of the JDBC helper: Java's integer widths, the
  loosely typed values a driver hands back, and the exceptions the code can
  raise or swallow.
 */
module Values {

  /** Java's `long`, `int` and `short`. */
  type Int64 = x: int | -0x8000_0000_0000_0000 <= x < 0x8000_0000_0000_0000
  type Int32 = x: int | -0x8000_0000 <= x < 0x8000_0000
  type Int16 = x: int | -0x8000 <= x < 0x8000

  /** The "value or Java null" wrapper; None stands for the null reference. */
  datatype Option<+T> = None | Some(value: T)

  /**
    The exceptions the modelled code raises. The SQLException that the
    driver's calls throw is the None of their Option results.
   */
  datatype Error =
    | ClassCastException        // a failed `(Number)` cast
    | IllegalArgumentException  // Timestamp.valueOf on a malformed string
    | NoSuchElementException    // Iterator.next past the end
    | IllegalStateException     // Iterator.remove with no row to remove
    | ConcurrentModificationException  // a fail-fast iterator after another changed the list

  datatype Result<+T> = Ok(value: T) | Err(error: Error)

  /** A java.sql.Timestamp, identified by its epoch-millisecond value. */
  datatype Timestamp = Timestamp(millis: Int64)

  /**
    A value stored in a row: what `ResultSet.getObject` returned.
    `Int` stands for every integral java.lang.Number (Byte, Short, Integer,
    Long); `Other` is any object of another class (a byte[], a Date, ...),
    told apart by an identity only.
   */
  datatype Value =
    | Null
    | Int(n: Int64)
    | Bool(b: bool)
    | Str(s: string)
    | Ts(t: Timestamp)
    | Other(identity: nat)
}
