/** The JDBC driver underneath the adapter (`java.sql.Connection` and
    `java.sql.CallableStatement`), reduced to what the adapter does with it.
    A statement records every call it receives; which calls throw and what
    `getObject` returns are fixed by the driver and given as oracles. */
module Jdbc {
  import opened Wrappers
  import opened Lang

  /** The two overloads of every JDBC parameter method: by 1-based index or by name. */
  datatype Target = ByIndex(index: Int32) | ByName(name: Option<string>)

  /** One call on a `CallableStatement`. */
  datatype Call =
    | SetObject(target: Target, x: Datum)                                       // setObject(p, x)
    | SetObjectTyped(target: Target, x: Datum, sqlType: Int32)                  // setObject(p, x, sqlType)
    | RegisterOutParameter(target: Target, sqlType: Int32)                      // registerOutParameter(p, sqlType)
    | RegisterOutParameterTyped(target: Target, sqlType: Int32, typeName: string) // registerOutParameter(p, sqlType, typeName)
    | GetObject(target: Target)                                                 // getObject(p)
    | Execute                                                                   // execute()

  class CallableStatement {
    /** The SQL text the statement was prepared from. */
    const sql: string
    /** Whether a call made after the calls in the log throws `SQLException`. */
    const fails: (seq<Call>, Call) -> bool
    /** What `getObject` returns for a parameter. */
    const answer: Target -> Datum
    /** Every call received so far, oldest first. */
    var log: seq<Call>

    constructor (sql: string, fails: (seq<Call>, Call) -> bool, answer: Target -> Datum)
      ensures this.sql == sql && this.fails == fails && this.answer == answer && log == []
    {
      this.sql := sql;
      this.fails := fails;
      this.answer := answer;
      log := [];
    }

    /** A call that returns nothing: it is recorded, and it may throw. */
    method Invoke(c: Call) returns (r: Outcome)
      modifies this
      ensures log == old(log) + [c]
      ensures r == if fails(old(log), c) then Fail(SqlException) else Pass
    {
      r := if fails(log, c) then Fail(SqlException) else Pass;
      log := log + [c];
    }

    /** `getObject(p)`: recorded; returns the driver's answer unless it throws. */
    method Read(t: Target) returns (r: Result<Datum>)
      modifies this
      ensures log == old(log) + [GetObject(t)]
      ensures r == if fails(old(log), GetObject(t)) then Err(SqlException) else Ok(answer(t))
    {
      r := if fails(log, GetObject(t)) then Err(SqlException) else Ok(answer(t));
      log := log + [GetObject(t)];
    }
  }

  class Connection {
    /** The SQL texts `prepareCall` rejects. */
    const refuses: string -> bool
    /** The behaviour of every statement this connection prepares. */
    const fails: (seq<Call>, Call) -> bool
    const answer: Target -> Datum

    constructor (refuses: string -> bool, fails: (seq<Call>, Call) -> bool, answer: Target -> Datum)
      ensures this.refuses == refuses && this.fails == fails && this.answer == answer
    {
      this.refuses := refuses;
      this.fails := fails;
      this.answer := answer;
    }

    /** `prepareCall(sql)`: a new statement for `sql`, or `SQLException`. */
    method PrepareCall(sql: string) returns (r: Result<CallableStatement>)
      ensures r.Err? <==> refuses(sql)
      ensures r.Err? ==> r.failure == SqlException
      ensures r.Ok? ==> fresh(r.value) && r.value.sql == sql && r.value.log == []
      ensures r.Ok? ==> r.value.fails == fails && r.value.answer == answer
    {
      if refuses(sql) {
        return Err(SqlException);
      }
      var s := new CallableStatement(sql, fails, answer);
      return Ok(s);
    }
  }
}
