/**
  Database.prepare: binds the arguments of a query positionally. A counter
  starts at 1; for each argument in turn the setter is chosen by the
  argument's runtime class, called with the current counter, and the counter
  is incremented. The statement is modelled as the sequence of setter calls
  it has received.
 */
module Binder {
  import opened Values

  /** java.sql.Types.NULL, the SQL type `setNull` is given for a null argument. */
  const TypesNull: int := 0

  /**
    An argument of `prepare`, by its runtime class. A Double is carried as
    its IEEE 754 bit pattern, which the binder passes on without looking at.
   */
  datatype Param =
    | IntegerArg(i: Int32)
    | ShortArg(s: Int16)
    | LongArg(l: Int64)
    | DoubleArg(bits: bv64)
    | StringArg(text: string)
    | NullArg
    | ObjectArg(identity: nat)  // an object of any other class

  /** A PreparedStatement setter call with the value it was given. */
  datatype Setter =
    | SetInt(i: Int32)
    | SetShort(s: Int16)
    | SetLong(l: Int64)
    | SetDouble(bits: bv64)
    | SetString(text: string)
    | SetNull(sqlType: int)
    | SetObject(identity: nat)

  /** One call `setX(parameterIndex, value)`. */
  datatype Binding = Binding(parameterIndex: int, setter: Setter)

  /** The argument a setter call carries; the null setter carries Java null. */
  function ArgumentOf(s: Setter): Param
  {
    match s
    case SetInt(i) => IntegerArg(i)
    case SetShort(x) => ShortArg(x)
    case SetLong(l) => LongArg(l)
    case SetDouble(bits) => DoubleArg(bits)
    case SetString(x) => StringArg(x)
    case SetNull(_) => NullArg
    case SetObject(identity) => ObjectArg(identity)
  }

  /**
    The setter the instanceof chain picks: Integer, Short, Long, Double,
    String, null, anything else. The value reaches the setter unchanged, and
    a null argument becomes a typed SQL NULL.
   */
  function SetterFor(p: Param): (s: Setter)
    ensures ArgumentOf(s) == p
    ensures p.NullArg? <==> s == SetNull(TypesNull)
  {
    match p
    case IntegerArg(i) => SetInt(i)
    case ShortArg(x) => SetShort(x)
    case LongArg(l) => SetLong(l)
    case DoubleArg(bits) => SetDouble(bits)
    case StringArg(x) => SetString(x)
    case NullArg => SetNull(TypesNull)
    case ObjectArg(identity) => SetObject(identity)
  }

  /** The calls `prepare` makes for `params`: argument i at parameter index i + 1. */
  function Bindings(params: seq<Param>): (bs: seq<Binding>)
    ensures |bs| == |params|
    ensures forall i :: 0 <= i < |params| ==> bs[i] == Binding(i + 1, SetterFor(params[i]))
  {
    if params == [] then []
    else Bindings(params[..|params| - 1]) + [Binding(|params|, SetterFor(params[|params| - 1]))]
  }

  /** The driver's statement, reduced to the setter calls it has received. */
  class PreparedStatement {
    const sql: string
    var bindings: seq<Binding>

    constructor (sql: string)
      ensures this.sql == sql && bindings == []
    {
      this.sql := sql;
      bindings := [];
    }

    /** Any of `setInt`, `setShort`, ..., `setObject`, as `setter` says. */
    method Set(parameterIndex: int, setter: Setter)
      modifies this
      ensures bindings == old(bindings) + [Binding(parameterIndex, setter)]
    {
      bindings := bindings + [Binding(parameterIndex, setter)];
    }
  }

  /** `prepare(sql, params)`: a new statement with every argument bound in order. */
  method Prepare(sql: string, params: seq<Param>) returns (stmt: PreparedStatement)
    ensures fresh(stmt) && stmt.sql == sql
    ensures stmt.bindings == Bindings(params)
  {
    stmt := new PreparedStatement(sql);
    var counter := 1;
    for i := 0 to |params|
      invariant counter == i + 1
      invariant stmt.bindings == Bindings(params[..i])
    {
      assert params[..i + 1][..i] == params[..i];
      match params[i] {
        case IntegerArg(x) =>
          stmt.Set(counter, SetInt(x));
          counter := counter + 1;
        case ShortArg(x) =>
          stmt.Set(counter, SetShort(x));
          counter := counter + 1;
        case LongArg(x) =>
          stmt.Set(counter, SetLong(x));
          counter := counter + 1;
        case DoubleArg(x) =>
          stmt.Set(counter, SetDouble(x));
          counter := counter + 1;
        case StringArg(x) =>
          stmt.Set(counter, SetString(x));
          counter := counter + 1;
        case NullArg =>
          stmt.Set(counter, SetNull(TypesNull));
          counter := counter + 1;
        case ObjectArg(x) =>
          stmt.Set(counter, SetObject(x));
          counter := counter + 1;
      }
    }
    assert counter == |params| + 1;
    assert params[..|params|] == params;
  }

  // ---------------------------------------------------------------------
  // Properties of the binder

  /** The parameter indices a sequence of calls uses. */
  function Positions(bs: seq<Binding>): set<int>
  {
    set b | b in bs :: b.parameterIndex
  }

  /** The parameter indices used are 1..n, each once, in increasing order. */
  lemma PositionsOneToN(params: seq<Param>)
    ensures forall p :: p in Positions(Bindings(params)) <==> 1 <= p <= |params|
    ensures forall i, j :: 0 <= i < j < |params| ==>
              Bindings(params)[i].parameterIndex < Bindings(params)[j].parameterIndex
  {
    var bs := Bindings(params);
    forall p | 1 <= p <= |params|
      ensures p in Positions(bs)
    {
      assert bs[p - 1] in bs;
    }
  }

  /** No conversion: reading back the argument of every call gives the caller's array. */
  lemma ArgumentsPassThrough(params: seq<Param>)
    ensures |Bindings(params)| == |params|
    ensures forall i :: 0 <= i < |params| ==> ArgumentOf(Bindings(params)[i].setter) == params[i]
  {
  }

  /** A null argument, and only a null argument, is bound with setNull and java.sql.Types.NULL. */
  lemma NullBoundAsTypedNull(params: seq<Param>, i: nat)
    requires i < |params|
    ensures Bindings(params)[i].setter == SetNull(TypesNull) <==> params[i] == NullArg
  {
  }

  /** An empty argument array makes no calls. */
  lemma NoArgumentsNoBindings()
    ensures Bindings([]) == []
  {
  }
}
