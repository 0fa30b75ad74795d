# A verified model of a small JDBC helper

The helper wraps a JDBC connection. It has three pieces of logic of its own, and this project models and proves those three:

- **Row accessors** (`QueryResultRow`, module `QueryRow`, file `query_row.dfy`). A row is a map from column name to the value the driver returned, and it is never changed after it is built. The typed accessors coerce a stored value by a fixed type dispatch. A row is therefore a datatype `Row`, and every accessor is a function on it. A stored value is one of `Null`, `Int` (a Byte, Short, Integer or Long), `Bool`, `Str`, `Ts` (a `java.sql.Timestamp`) or `Other`.
- **Result materialisation** (`QueryResult`, module `Query`, file `query.dfy`). The constructor reads the column names from the metadata into an array. Then, for each cursor record, it fills a fresh map by `put(s, getObject(s))` for every array entry and appends the row to its list. It is modelled imperatively: a class `QueryResult` whose constructor runs the two loops (`ReadHeader` writes the array, `BuildRow` builds one map, and the constructor's own `while` appends). Each loop is proved against a specification function (`HeaderAsWritten`, `RecordMap`, `Materialise`), and the lemmas state what those functions promise. The accessors are functions that delegate to a row. `iterator()` returns a `RowIterator`, modelled on ArrayList's iterator. It reads the live list, its `Remove` deletes the last row returned from the `QueryResult`, and it is fail-fast through the list's modification count.
- **Parameter binding** (`Database.prepare`, module `Binder`, file `binder.dfy`). A counter starts at 1. For each argument, the setter is chosen by the argument's runtime class and called at the current counter position. The statement is a class `PreparedStatement` that records the setter calls it receives. `Prepare` is proved to make exactly the calls `Bindings(params)`.

Shared types (Java's integer widths, `Option`, `Result`, the exceptions, `Value`) live in module `Values`, file `values.dfy`.

The model follows the code wherever the code and its comments or its intended design disagree:

- `asBoolean` tests `byteValue() == 1`, so 257 and -255 read as true. Its doc comment says "equal to exactly 1". `AsBooleanInByteRange` proves the comment's claim for values from -128 to 127, and `AsBooleanOfIntPast255` shows the difference.
- The header loop writes every column name to `columns[0]`. Slot 0 ends with the last name, and the other slots stay null. Every row is therefore keyed by at most two keys: the last column's name, and null when there are two columns or more (`OnlyLastColumnIsKeyed`). Java's `HashMap` accepts a null key, so column names are modelled as `Option<string>`, where `None` is Java's null.

Library behaviour the repository cannot show is passed in as a function parameter:

- `show: Value -> string` is `toString` of values that are not strings.
- `parse: string -> Option<Timestamp>` is `Timestamp.valueOf`, where `None` means it threw.
- `getObject` and the metadata calls are fields of the `ResultSet` datatype. They return `Option`, where `None` means the call threw SQLException.

## Model

| member | source | states |
|---|---|---|
| `QueryRow.HasColumn` | src/info/malignantshadow/api/database/QueryResultRow.java:33-35 | true iff the column is a key of the row's map, even when it holds null |
| `QueryRow.Get` | src/info/malignantshadow/api/database/QueryResultRow.java:44-46 | the stored value for a key that is present, null for an absent key |
| `QueryRow.AsString` | src/info/malignantshadow/api/database/QueryResultRow.java:48-62 | "null" for an absent or null value; a string value comes back unchanged; anything else gives its toString |
| `QueryRow.IsNumber` | src/info/malignantshadow/api/database/QueryResultRow.java:64-73 | true iff the stored value is a number, so false for an absent or null value |
| `QueryRow.AsNumber` | src/info/malignantshadow/api/database/QueryResultRow.java:75-84 | null iff the value is absent or null; the number itself iff it is numeric; a ClassCastException for every other kind |
| `QueryRow.ByteValue` | src/info/malignantshadow/api/database/QueryResultRow.java:104 | `byteValue()` is the signed 8-bit value congruent to the number modulo 256 |
| `QueryRow.EqualsTrueIgnoringCase` | src/info/malignantshadow/api/database/QueryResultRow.java:107 | `equalsIgnoreCase("true")` accepts exactly the sixteen upper/lower-case spellings of "true" |
| `QueryRow.AsBoolean` | src/info/malignantshadow/api/database/QueryResultRow.java:99-111 | a Boolean gives itself; a number is true iff its value mod 256 is 1; a string is true iff it is "1" or a spelling of "true"; null, absent, timestamps and other objects give false |
| `QueryRow.GetTimestamp` | src/info/malignantshadow/api/database/QueryResultRow.java:113-135 | a number n gives the timestamp at n epoch milliseconds; a timestamp comes back unchanged; a string goes to the parser, and a parse failure is the only error; null, absent, booleans and other objects give null |
| `QueryRow.AbsentColumn` | src/info/malignantshadow/api/database/QueryResultRow.java:44-135 | for a key that is not in the row, every accessor answers as for null: "null", not a number, false, no timestamp |
| `QueryRow.IsNumberReadsStoredNumber` | src/info/malignantshadow/api/database/QueryResultRow.java:71-84 | `isNumber` holds exactly when the key is present and holds a number, and then `asNumber` returns that stored number |
| `QueryRow.AsBooleanInByteRange` | src/info/malignantshadow/api/database/QueryResultRow.java:86-104 | for a number from -128 to 127, `asBoolean` is true iff the number is exactly 1, as the doc comment says |
| `QueryRow.AsBooleanOfIntPast255` | src/info/malignantshadow/api/database/QueryResultRow.java:90-104 | 257 and -255 read as true, which is outside the doc comment's "exactly 1" |
| `QueryRow.AsBooleanOfStrings` | src/info/malignantshadow/api/database/QueryResultRow.java:105-108 | "TRUE" reads as true; "0" and "yes" read as false |
| `QueryRow.GetTimestampOfMillis` | src/info/malignantshadow/api/database/QueryResultRow.java:127-128 | the number 1000 reads as the timestamp one second past the epoch |
| `Query.ReadHeader` | src/info/malignantshadow/api/database/QueryResult.java:31-33 | the array has one slot per column; slot 0 ends with the last name and the other slots with null; the loop fails iff reading the count or a name throws SQLException |
| `Query.BuildRow` | src/info/malignantshadow/api/database/QueryResult.java:36-38 | the map that was built has the array's entries as keys, each mapped to getObject's value; the loop fails iff some getObject call throws SQLException |
| `Query.QueryResult.constructor` | src/info/malignantshadow/api/database/QueryResult.java:28-45 | the list is `Materialise(rs)`: empty when the header fails, otherwise one row per record up to the first record whose getObject throws; the modification count equals the number of rows added |
| `Query.QueryResult.Rows` | src/info/malignantshadow/api/database/QueryResult.java:131-133 | the number of rows in the list |
| `Query.QueryResult.IsEmpty` | src/info/malignantshadow/api/database/QueryResult.java:122-124 | true iff `rows()` is 0, and so iff the list is empty |
| `Query.QueryResult.Get` | src/info/malignantshadow/api/database/QueryResult.java:57-59 | for an index below `rows()`, the `get` of that row |
| `Query.QueryResult.GetString` | src/info/malignantshadow/api/database/QueryResult.java:71-73 | for an index below `rows()`, the `asString` of that row, so "null" for a null value |
| `Query.QueryResult.GetNumber` | src/info/malignantshadow/api/database/QueryResult.java:85-87 | for an index below `rows()`, the `asNumber` of that row, which is a number iff the value is numeric |
| `Query.QueryResult.GetBoolean` | src/info/malignantshadow/api/database/QueryResult.java:99-101 | for an index below `rows()`, the `asBoolean` of that row, so false for a null value |
| `Query.QueryResult.GetTimestamp` | src/info/malignantshadow/api/database/QueryResult.java:113-115 | for an index below `rows()`, the `getTimestamp` of that row, so a number n gives the timestamp at n milliseconds |
| `Query.QueryResult.Iterator` | src/info/malignantshadow/api/database/QueryResult.java:136-138 | a new iterator over this result's own list, before its first row, expecting the list's current modification count |
| `Query.RowIterator.constructor` | src/info/malignantshadow/api/database/QueryResult.java:136-138 | the iterator starts at cursor 0 with no row to remove |
| `Query.RowIterator.HasNext` | src/info/malignantshadow/api/database/QueryResult.java:136-138 | true iff the cursor is not at the end of the live list |
| `Query.RowIterator.Next` | src/info/malignantshadow/api/database/QueryResult.java:136-138 | yields the rows in list order, one position per call; past the end it fails with NoSuchElementException, and after another iterator changed the list with ConcurrentModificationException, without moving |
| `Query.RowIterator.Remove` | src/info/malignantshadow/api/database/QueryResult.java:136-138 | deletes the row last returned from the QueryResult's list, so `rows()` drops by one, and moves the cursor back onto that index; with no row to remove it fails with IllegalStateException, and after another iterator's change with ConcurrentModificationException, changing nothing |
| `Query.HeaderShape` | src/info/malignantshadow/api/database/QueryResult.java:31-33 | the header fails iff the count or one of names 1..n cannot be read; otherwise it has n slots, slot 0 holds name n, and slots 1..n-1 hold null |
| `Query.FetchedAt` | src/info/malignantshadow/api/database/QueryResult.java:35-39 | the i-th row appended from record k on is the map of record k+i |
| `Query.FetchedStopsAtFailure` | src/info/malignantshadow/api/database/QueryResult.java:35-44 | the rows cover a run of consecutive records that all succeed; a run that stops before the end stops at a record whose getObject throws |
| `Query.MaterialiseOrder` | src/info/malignantshadow/api/database/QueryResult.java:28-44 | at most one row per record; row k is the map of record k; fewer rows than records means the header or record `rows()` threw |
| `Query.MaterialiseEmpty` | src/info/malignantshadow/api/database/QueryResult.java:29-44 | a cursor with no records, or whose header fails, gives no rows |
| `Query.MaterialisedRowIsVerbatim` | src/info/malignantshadow/api/database/QueryResult.java:36-38 | each row's key set is the set of array entries (duplicates collapse), and `get` of a key gives getObject's value unchanged |
| `Query.SameColumnsInEveryRow` | src/info/malignantshadow/api/database/QueryResult.java:35-39 | all rows of a result have the same key set |
| `Query.OnlyLastColumnIsKeyed` | src/info/malignantshadow/api/database/QueryResult.java:31-38 | each row's keys are the last column's name, plus null when there are two columns or more |
| `Binder.SetterFor` | src/info/malignantshadow/api/database/Database.java:66-79 | the chosen setter carries the argument unchanged (reading it back gives the argument); a null argument, and only a null one, becomes `setNull(Types.NULL)` |
| `Binder.Bindings` | src/info/malignantshadow/api/database/Database.java:64-80 | one call per argument; call i binds argument i at parameter index i+1 with the setter for its class |
| `Binder.PreparedStatement.constructor` | src/info/malignantshadow/api/database/Database.java:63 | a freshly prepared statement for the SQL text, with no bindings |
| `Binder.PreparedStatement.Set` | src/info/malignantshadow/api/database/Database.java:66-79 | a setter call appends one binding and changes nothing else |
| `Binder.Prepare` | src/info/malignantshadow/api/database/Database.java:62-83 | the new statement receives exactly the calls `Bindings(params)` (the body's loop invariant also proves that the counter is i+1 before argument i and n+1 at the end) |
| `Binder.PositionsOneToN` | src/info/malignantshadow/api/database/Database.java:64-80 | the parameter indices used are exactly 1..n, strictly increasing, so each is used once |
| `Binder.ArgumentsPassThrough` | src/info/malignantshadow/api/database/Database.java:66-79 | the value of every call, read back, is the caller's argument at that position |
| `Binder.NullBoundAsTypedNull` | src/info/malignantshadow/api/database/Database.java:76-77 | argument i is bound as `setNull(Types.NULL)` iff it is null |
| `Binder.NoArgumentsNoBindings` | src/info/malignantshadow/api/database/Database.java:65 | an empty argument array makes no calls |

## Left out

- `Database.connect`, `write` and `read`, the connection string and its formatting, the `isValid(5)` check, query execution, stack-trace logging and the closing of statements and result sets: these are connection and driver I/O with no logic of their own.
- `DatabaseException` is not part of this model: it holds a message and nothing throws it.
- Floating-point and arbitrary-precision numbers (Double, Float, BigDecimal, BigInteger) as stored values: the model's numbers are the integral ones up to 64 bits, so the truncation that `byteValue()` and `longValue()` do on a Double is not modelled. A Double argument of `prepare` is carried as its bit pattern and is only passed on.
- `toString` of values other than strings and `Timestamp.valueOf` are parameters (`show`, `parse`). Their behaviour, including the timestamp escape format, is library behaviour.
- A timestamp is identified by its millisecond value. The nanosecond field of `java.sql.Timestamp` is not modelled.
- `EqualsTrueIgnoringCase`: case is mapped for ASCII letters only. For the comparison with "true" this matters only if some non-ASCII character maps to one of t, r, u or e under Java's Unicode case mapping.
- `getObject` and the metadata calls are modelled as deterministic functions that either return a value or throw SQLException. An unchecked exception from the driver, which would escape the constructor because only SQLException is caught, is not modelled. What a driver does with `getObject(null)`, which the header bug causes, is left to that function.
- A `next()` that throws is not modelled separately. The exception is swallowed, so it ends construction exactly as the end of the cursor does.
- A negative column count does not occur: `columnCount` is a `nat`. In Java a negative count would throw an uncaught NegativeArraySizeException.
- `Binder.Prepare`: `prepareStatement` and the setters are modelled as never throwing. A driver rejects a parameter index beyond the statement's markers, but this model does not. The `int` counter's overflow, which would need more than 2^31 - 2 arguments, is not modelled either. Nor is a null argument array: `params` is a sequence, whereas in Java a null array makes the for-each throw a NullPointerException that the callers' SQLException handlers do not catch.
- `Query.QueryResult.Get`, `GetString`, `GetNumber`, `GetBoolean`, `GetTimestamp`: an index outside 0..rows()-1 is excluded by a precondition. The IndexOutOfBoundsException that Java throws there, and that the doc comments leave to the caller, is not modelled.
- "No accessor modifies the row map" holds by construction, since a `Row` is an immutable value. "`asString` never returns null" holds because the model assumes `toString` never returns null: `show` returns a string, and a string cannot be null. Java's `toString` of an arbitrary class could return null. No lemma states either fact.
