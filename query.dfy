/**
  QueryResult: materialises a ResultSet into a list of rows. The constructor
  reads the column names from the metadata into an array, then steps through
  the records and, for each, puts every column of that array into a fresh
  map with the value getObject returns, appending one row per record. An
  SQLException anywhere stops the construction and is swallowed, so the list
  keeps the rows appended before it. The remaining members are reads.

  The header loop is modelled as written: it stores every name in slot 0, so
  slot 0 ends up with the last column's name and every other slot stays null.
 */
module Query {
  import opened Values
  import opened QueryRow

  /**
    ResultSetMetaData as the constructor queries it. Every call can throw
    SQLException, the only exception the constructor catches; None stands
    for that exception.
   */
  datatype Metadata = Metadata(
    columnCount: Option<nat>,           // getMetaData().getColumnCount()
    columnName: nat -> Option<string>)  // getMetaData().getColumnName(i), numbered from 1

  /**
    A ResultSet: its metadata, the number of records `next()` steps through,
    and `getObject` on the k-th record (numbered from 0), which may throw
    SQLException (None).
    A `next()` that throws ends the construction exactly as a `next()` that
    returns false does (the exception is swallowed), so `size` covers both.
   */
  datatype ResultSet = ResultSet(
    metadata: Metadata,
    size: nat,
    getObject: (nat, Column) -> Option<Value>)

  /** Every one of the names 1..n can be read. */
  predicate NamesReadable(md: Metadata, n: nat)
  {
    forall i :: 1 <= i <= n ==> md.columnName(i).Some?
  }

  /**
    What the array `columns` holds after the header loop, or None when the
    loop throws: every name is stored in slot 0, so slot 0 ends with the last
    name and the other slots keep their initial null.
   */
  function HeaderAsWritten(md: Metadata): Option<seq<Column>>
  {
    match md.columnCount
    case None => None
    case Some(n) =>
      if !NamesReadable(md, n) then None
      else if n == 0 then Some([])
      else Some([Some(md.columnName(n).value)] + seq(n - 1, _ => None))
  }

  /**
    The map built for record k: each entry of `columns` is put with the value
    getObject returns for it, later duplicates overwriting earlier ones;
    None when a getObject call throws.
   */
  function RecordMap(columns: seq<Column>, rs: ResultSet, k: nat): Option<map<Column, Value>>
  {
    if forall key :: key in columns ==> rs.getObject(k, key).Some?
    then Some(map key | key in columns :: rs.getObject(k, key).value)
    else None
  }

  /** The rows appended from record k on: one per record, up to the first record whose map throws. */
  function Fetched(columns: seq<Column>, rs: ResultSet, k: nat): seq<Row>
    decreases rs.size - k
  {
    if k >= rs.size then []
    else match RecordMap(columns, rs, k)
      case None => []
      case Some(m) => [Row(m)] + Fetched(columns, rs, k + 1)
  }

  /** The list a QueryResult holds once its constructor has run on `rs`. */
  function Materialise(rs: ResultSet): seq<Row>
  {
    match HeaderAsWritten(rs.metadata)
    case None => []
    case Some(columns) => Fetched(columns, rs, 0)
  }

  /** The header loop of the constructor, as written: each name it reads is stored in slot 0. */
  method ReadHeader(md: Metadata) returns (columns: Option<array<Column>>)
    ensures columns.None? <==> HeaderAsWritten(md).None?
    ensures columns.Some? ==> columns.value[..] == HeaderAsWritten(md).value
  {
    match md.columnCount {
      case None =>
        return None;
      case Some(n) =>
        var a := new Column[n](_ => None);
        for i := 0 to a.Length
          invariant NamesReadable(md, i)
          invariant forall j :: 1 <= j < a.Length ==> a[j] == None
          invariant a.Length > 0 ==> a[0] == if i == 0 then None else Some(md.columnName(i).value)
        {
          var name := md.columnName(i + 1);
          if name.None? {
            return None;
          }
          a[0] := Some(name.value);
        }
        assert n > 0 ==> a[..] == [Some(md.columnName(n).value)] + seq(n - 1, _ => None);
        return Some(a);
    }
  }

  /** The body of the record loop: every entry of `columns`, in order, is put with its getObject value. */
  method BuildRow(columns: array<Column>, rs: ResultSet, k: nat) returns (data: Option<map<Column, Value>>)
    ensures data == RecordMap(columns[..], rs, k)
  {
    var m: map<Column, Value> := map[];
    for j := 0 to columns.Length
      invariant forall key :: key in columns[..j] ==> rs.getObject(k, key).Some?
      invariant m == map key | key in columns[..j] :: rs.getObject(k, key).value
    {
      var s := columns[j];
      var v := rs.getObject(k, s);
      if v.None? {
        assert s in columns[..];
        return None;
      }
      assert columns[..j + 1] == columns[..j] + [s];
      m := m[s := v.value];
    }
    assert columns[..] == columns[..columns.Length];
    return Some(m);
  }

  class QueryResult {
    /** The list `_result` of materialised rows. */
    var result: seq<Row>
    /** The list's count of structural changes, which its iterators check. */
    var modCount: nat

    constructor (rs: ResultSet)
      ensures result == Materialise(rs)
      ensures modCount == |result|
    {
      result := [];
      modCount := 0;
      new;
      var header := ReadHeader(rs.metadata);
      if header.Some? {
        var columns := header.value;
        ghost var names := columns[..];
        assert Materialise(rs) == Fetched(names, rs, 0);
        var k := 0;
        while k < rs.size
          invariant k <= rs.size
          invariant columns[..] == names
          invariant result + Fetched(names, rs, k) == Materialise(rs)
          invariant modCount == |result|
          decreases rs.size - k
        {
          var data := BuildRow(columns, rs, k);
          FetchedStep(names, rs, k);
          if data.None? {
            break;
          }
          var row := Row(data.value);
          assert (result + [row]) + Fetched(names, rs, k + 1) == result + Fetched(names, rs, k);
          result := result + [row];
          modCount := modCount + 1;
          k := k + 1;
        }
      }
    }

    /** `rows()`: the size of the list. */
    function Rows(): (n: nat)
      reads this
      ensures n == |result|
    {
      |result|
    }

    /** `isEmpty()`: there are no rows. */
    predicate IsEmpty()
      reads this
      ensures IsEmpty() <==> Rows() == 0
      ensures IsEmpty() <==> result == []
    {
      Rows() == 0
    }

    /** `get(index, column)`: row `index`'s `get`. */
    function Get(index: int, column: Column): (v: Value)
      reads this
      requires 0 <= index < Rows()
      ensures v == QueryRow.Get(result[index], column)
    {
      QueryRow.Get(result[index], column)
    }

    /** `getString(index, column)`: row `index`'s `asString`. */
    function GetString(index: int, column: Column, show: Value -> string): (s: string)
      reads this
      requires 0 <= index < Rows()
      ensures s == AsString(result[index], column, show)
      ensures Get(index, column) == Null ==> s == "null"
    {
      AsString(result[index], column, show)
    }

    /** `getNumber(index, column)`: row `index`'s `asNumber`. */
    function GetNumber(index: int, column: Column): (r: Result<Option<Int64>>)
      reads this
      requires 0 <= index < Rows()
      ensures r == AsNumber(result[index], column)
      ensures r.Ok? && r.value.Some? <==> Get(index, column).Int?
    {
      AsNumber(result[index], column)
    }

    /** `getBoolean(index, column)`: row `index`'s `asBoolean`. */
    function GetBoolean(index: int, column: Column): (b: bool)
      reads this
      requires 0 <= index < Rows()
      ensures b == AsBoolean(result[index], column)
      ensures Get(index, column).Null? ==> !b
    {
      AsBoolean(result[index], column)
    }

    /** `getTimestamp(index, column)`: row `index`'s `getTimestamp`. */
    function GetTimestamp(index: int, column: Column, parse: string -> Option<Timestamp>)
      : (r: Result<Option<Timestamp>>)
      reads this
      requires 0 <= index < Rows()
      ensures r == QueryRow.GetTimestamp(result[index], column, parse)
      ensures Get(index, column).Int? ==> r == Ok(Some(Timestamp(Get(index, column).n)))
    {
      QueryRow.GetTimestamp(result[index], column, parse)
    }

    /** `iterator()`: the list's own iterator, positioned before its first row. */
    method Iterator() returns (it: RowIterator)
      ensures fresh(it)
      ensures it.list == this && it.cursor == 0 && it.lastReturned == -1
      ensures it.expectedModCount == modCount
    {
      it := new RowIterator(this);
    }
  }

  /**
    The ArrayList iterator over a QueryResult's list. It reads the live list,
    so `Remove` deletes from the QueryResult itself. It is fail-fast: once the
    list's modification count differs from the one it expects (another
    iterator removed a row), `Next` and `Remove` throw
    ConcurrentModificationException.
   */
  class RowIterator {
    const list: QueryResult
    var cursor: nat
    /** The index of the row last returned, or -1 when there is none to remove. */
    var lastReturned: int
    var expectedModCount: nat

    constructor (list: QueryResult)
      ensures this.list == list && cursor == 0 && lastReturned == -1
      ensures expectedModCount == list.modCount
    {
      this.list := list;
      cursor := 0;
      lastReturned := -1;
      expectedModCount := list.modCount;
    }

    /** `hasNext()`: the cursor is not at the end of the list. */
    predicate HasNext()
      reads this, list
      ensures HasNext() <==> cursor != |list.result|
    {
      cursor != |list.result|
    }

    /** `next()`: the row at the cursor, which then moves one place on. */
    method Next() returns (r: Result<Row>)
      modifies this
      ensures list.modCount != expectedModCount ==>
                r == Err(ConcurrentModificationException) && unchanged(this)
      ensures list.modCount == expectedModCount && old(cursor) >= |list.result| ==>
                r == Err(NoSuchElementException) && unchanged(this)
      ensures list.modCount == expectedModCount && old(cursor) < |list.result| ==>
                && r == Ok(list.result[old(cursor)])
                && cursor == old(cursor) + 1 && lastReturned == old(cursor)
                && expectedModCount == old(expectedModCount)
    {
      if list.modCount != expectedModCount {
        return Err(ConcurrentModificationException);
      }
      if cursor >= |list.result| {
        return Err(NoSuchElementException);
      }
      r := Ok(list.result[cursor]);
      lastReturned := cursor;
      cursor := cursor + 1;
    }

    /** `remove()`: deletes the row `next()` last returned from the QueryResult's list. */
    method Remove() returns (error: Option<Error>)
      modifies this, list
      ensures old(lastReturned) < 0 ==>
                error == Some(IllegalStateException) && unchanged(this, list)
      ensures old(lastReturned) >= 0 && old(list.modCount) != old(expectedModCount) ==>
                error == Some(ConcurrentModificationException) && unchanged(this, list)
      ensures old(lastReturned) >= |old(list.result)| && old(list.modCount) == old(expectedModCount) ==>
                error == Some(ConcurrentModificationException) && unchanged(this, list)
      ensures 0 <= old(lastReturned) < |old(list.result)| && old(list.modCount) == old(expectedModCount) ==>
                && error == None
                && list.result == old(list.result)[..old(lastReturned)] + old(list.result)[old(lastReturned) + 1..]
                && list.modCount == old(list.modCount) + 1
                && cursor == old(lastReturned) && lastReturned == -1
                && expectedModCount == list.modCount
    {
      if lastReturned < 0 {
        return Some(IllegalStateException);
      }
      if list.modCount != expectedModCount || lastReturned >= |list.result| {
        return Some(ConcurrentModificationException);
      }
      list.result := list.result[..lastReturned] + list.result[lastReturned + 1..];
      list.modCount := list.modCount + 1;
      cursor := lastReturned;
      lastReturned := -1;
      expectedModCount := list.modCount;
      return None;
    }
  }

  // ---------------------------------------------------------------------
  // Properties of the materialisation

  /**
    After the header loop the array has one slot per column; slot 0 holds
    the last column's name and the other slots hold null. The loop fails
    exactly when the count or one of the names cannot be read.
   */
  lemma HeaderShape(md: Metadata)
    ensures HeaderAsWritten(md).None? <==>
              md.columnCount.None? || exists i :: 1 <= i <= md.columnCount.value && md.columnName(i).None?
    ensures HeaderAsWritten(md).Some? ==>
              var columns := HeaderAsWritten(md).value;
              var n := md.columnCount.value;
              && |columns| == n
              && (n >= 1 ==> columns[0] == Some(md.columnName(n).value))
              && (forall j :: 1 <= j < n ==> columns[j] == None)
  {
  }

  /** One step of the record loop: record k either ends the rows or adds its own row before the rest. */
  lemma FetchedStep(columns: seq<Column>, rs: ResultSet, k: nat)
    requires k < rs.size
    ensures RecordMap(columns, rs, k).None? ==> Fetched(columns, rs, k) == []
    ensures RecordMap(columns, rs, k).Some? ==>
              Fetched(columns, rs, k) == [Row(RecordMap(columns, rs, k).value)] + Fetched(columns, rs, k + 1)
  {
  }

  /** Row i of those fetched from record k is the map of record k + i. */
  lemma {:induction false} FetchedAt(columns: seq<Column>, rs: ResultSet, k: nat, i: nat)
    requires i < |Fetched(columns, rs, k)|
    ensures k + i < rs.size
    ensures RecordMap(columns, rs, k + i) == Some(Fetched(columns, rs, k)[i].data)
    decreases i
  {
    if i > 0 {
      FetchedAt(columns, rs, k + 1, i - 1);
    }
  }

  /**
    The rows fetched from record k are those of the records k, k+1, ... up to
    the first record whose map throws, or the end of the cursor.
   */
  lemma {:induction false} FetchedStopsAtFailure(columns: seq<Column>, rs: ResultSet, k: nat)
    requires k <= rs.size
    ensures k + |Fetched(columns, rs, k)| <= rs.size
    ensures forall i :: k <= i < k + |Fetched(columns, rs, k)| ==> RecordMap(columns, rs, i).Some?
    ensures k + |Fetched(columns, rs, k)| < rs.size ==>
              RecordMap(columns, rs, k + |Fetched(columns, rs, k)|).None?
    decreases rs.size - k
  {
    if k < rs.size && RecordMap(columns, rs, k).Some? {
      FetchedStopsAtFailure(columns, rs, k + 1);
    }
  }

  /**
    One row per record, in cursor order, up to the first failure: row k is
    the map of record k, the rows cover records 0..|rows|-1, and when there
    are fewer rows than records, the header or record |rows| threw.
   */
  lemma MaterialiseOrder(rs: ResultSet)
    ensures |Materialise(rs)| <= rs.size
    ensures forall k :: 0 <= k < |Materialise(rs)| ==>
              HeaderAsWritten(rs.metadata).Some? &&
              RecordMap(HeaderAsWritten(rs.metadata).value, rs, k) == Some(Materialise(rs)[k].data)
    ensures |Materialise(rs)| < rs.size ==>
              HeaderAsWritten(rs.metadata).None? ||
              RecordMap(HeaderAsWritten(rs.metadata).value, rs, |Materialise(rs)|).None?
  {
    if HeaderAsWritten(rs.metadata).Some? {
      var columns := HeaderAsWritten(rs.metadata).value;
      FetchedStopsAtFailure(columns, rs, 0);
      forall k | 0 <= k < |Materialise(rs)|
        ensures RecordMap(columns, rs, k) == Some(Materialise(rs)[k].data)
      {
        FetchedAt(columns, rs, 0, k);
      }
    }
  }

  /** A cursor with no records, or whose header throws, gives an empty result. */
  lemma MaterialiseEmpty(rs: ResultSet)
    requires rs.size == 0 || HeaderAsWritten(rs.metadata).None?
    ensures Materialise(rs) == []
  {
  }

  /**
    Every row's key set is the set of entries of `columns`, and every key
    maps to what getObject returned for it, without coercion; reading the
    row with `get` therefore gives the driver's value back.
   */
  lemma MaterialisedRowIsVerbatim(rs: ResultSet, k: nat, column: Column)
    requires k < |Materialise(rs)|
    ensures HeaderAsWritten(rs.metadata).Some?
    ensures Materialise(rs)[k].data.Keys == set key | key in HeaderAsWritten(rs.metadata).value
    ensures column in HeaderAsWritten(rs.metadata).value ==>
              rs.getObject(k, column).Some? && QueryRow.Get(Materialise(rs)[k], column) == rs.getObject(k, column).value
  {
    MaterialiseOrder(rs);
  }

  /** All rows of a result have the same column set. */
  lemma SameColumnsInEveryRow(rs: ResultSet, k: nat, l: nat)
    requires k < |Materialise(rs)| && l < |Materialise(rs)|
    ensures Materialise(rs)[k].data.Keys == Materialise(rs)[l].data.Keys
  {
    MaterialisedRowIsVerbatim(rs, k, None);
    MaterialisedRowIsVerbatim(rs, l, None);
  }

  /**
    Because of the header loop, a row has just two keys at most: the last
    column's name, and null when there are two columns or more.
   */
  lemma OnlyLastColumnIsKeyed(rs: ResultSet, k: nat)
    requires k < |Materialise(rs)|
    ensures rs.metadata.columnCount.Some?
    ensures var n := rs.metadata.columnCount.value;
            && (n >= 1 ==> rs.metadata.columnName(n).Some?)
            && Materialise(rs)[k].data.Keys ==
                 (if n == 0 then {} else {Some(rs.metadata.columnName(n).value)})
                 + (if n >= 2 then {None} else {})
  {
    MaterialisedRowIsVerbatim(rs, k, None);
    var n := rs.metadata.columnCount.value;
    var columns := HeaderAsWritten(rs.metadata).value;
    if n >= 2 {
      assert columns[1] == None;
    }
  }
}
