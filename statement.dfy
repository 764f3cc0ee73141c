/** `Statement`: the callable-statement adapter.  It synthesizes the call
    string of a stored routine and dispatches each parameter operation to
    the index or the name overload of the underlying JDBC statement. */
module Statements {
  import opened Wrappers
  import opened Lang
  import opened Jdbc
  import opened ParameterKeys

  /** `n` question marks separated by single commas (empty when `n <= 0`). */
  function Placeholders(n: int): string
  {
    seq(if n <= 0 then 0 else 2 * n - 1, j => if j % 2 == 0 then '?' else ',')
  }

  /** Number of occurrences of `c` in `s`. */
  function Count(s: string, c: char): nat
  {
    if s == [] then 0 else (if s[0] == c then 1 else 0) + Count(s[1..], c)
  }

  /** `{call N(?,...)}` with one placeholder per parameter. */
  function ProcedureSql(name: Option<string>, parametersNumber: Int32): string
  {
    "{call " + ShowString(name) + "(" + Placeholders(parametersNumber) + ")}"
  }

  /** `{? = call N(?,...)}`: the leading `?` is the return value and counts
      as one of the parameters; the decrement is `int` arithmetic. */
  function FunctionSql(name: Option<string>, parametersNumber: Int32): string
  {
    "{? = call " + ShowString(name) + "(" + Placeholders(Wrap32(parametersNumber - 1)) + ")}"
  }

  /** `createParameterString(number)`: appends `"?,"` for every position but
      the last and `"?"` for the last one. */
  method CreateParameterString(number: Int32) returns (result: string)
    ensures result == Placeholders(number)
  {
    result := "";
    var i := 1;
    while i <= number
      invariant 1 <= i && (number >= 1 ==> i <= number + 1) && (number < 1 ==> i == 1)
      invariant |result| == if number >= 1 && i == number + 1 then 2 * number - 1 else 2 * (i - 1)
      invariant forall j :: 0 <= j < |result| ==> result[j] == if j % 2 == 0 then '?' else ','
    {
      result := result + (if i < number then "?," else "?");
      i := i + 1;
    }
  }

  lemma {:induction false} CountAppend(a: string, b: string, c: char)
    ensures Count(a + b, c) == Count(a, c) + Count(b, c)
  {
    if a == [] {
      assert a + b == b;
    } else {
      assert (a + b)[1..] == a[1..] + b;
      CountAppend(a[1..], b, c);
    }
  }

  lemma {:induction false} CountAbsent(s: string, c: char)
    requires c !in s
    ensures Count(s, c) == 0
  {
    if s != [] {
      assert s == [s[0]] + s[1..];
      CountAbsent(s[1..], c);
    }
  }

  /** For `n >= 1` the placeholder list starts and ends with `?` (no
      trailing comma), never has two adjacent `?` or two adjacent commas,
      and holds exactly `n` question marks; for `n <= 0` it is empty. */
  lemma {:induction false} PlaceholdersShape(n: int)
    ensures n <= 0 ==> Placeholders(n) == ""
    ensures n >= 1 ==> |Placeholders(n)| == 2 * n - 1
    ensures n >= 1 ==> Placeholders(n)[0] == '?' && Placeholders(n)[2 * n - 2] == '?'
    ensures forall j :: 0 <= j < |Placeholders(n)| - 1 ==> Placeholders(n)[j] != Placeholders(n)[j + 1]
    ensures Count(Placeholders(n), '?') == if n <= 0 then 0 else n
    decreases n
  {
    if n >= 2 {
      assert Placeholders(n) == Placeholders(n - 1) + ",?";
      CountAppend(Placeholders(n - 1), ",?", '?');
      PlaceholdersShape(n - 1);
    } else if n == 1 {
      assert Placeholders(1) == "?";
    }
  }

  /** The examples of the call-string format. */
  lemma SqlExamples()
    ensures ProcedureSql(Some("pkg.proc"), 0) == "{call pkg.proc()}"
    ensures ProcedureSql(Some("pkg.proc"), 3) == "{call pkg.proc(?,?,?)}"
    ensures FunctionSql(Some("pkg.fn"), 1) == "{? = call pkg.fn()}"
    ensures FunctionSql(Some("pkg.fn"), 4) == "{? = call pkg.fn(?,?,?)}"
  {
    assert Placeholders(0) == "";
    assert Placeholders(3) == "?,?,?";
  }

  /** The question marks of `head + name + "(" + list + ")}"` are those of its three parts. */
  lemma CountCallString(head: string, name: string, list: string)
    ensures Count(head + name + "(" + list + ")}", '?') == Count(head, '?') + Count(name, '?') + Count(list, '?')
  {
    CountAppend(head + name + "(" + list, ")}", '?');
    CountAppend(head + name + "(", list, '?');
    CountAppend(head + name, "(", '?');
    CountAppend(head, name, '?');
    CountAbsent("(", '?');
    CountAbsent(")}", '?');
  }

  /** For a routine name without `?`, the procedure call string carries one
      `?` per parameter. */
  lemma ProcedureSqlPlaceholders(name: Option<string>, n: Int32)
    requires n >= 1 && Count(ShowString(name), '?') == 0
    ensures Count(ProcedureSql(name, n), '?') == n
  {
    CountCallString("{call ", ShowString(name), Placeholders(n));
    CountAbsent("{call ", '?');
    PlaceholdersShape(n);
  }

  /** For a routine name without `?`, the function call string carries one
      `?` per parameter, the return value included. */
  lemma FunctionSqlPlaceholders(name: Option<string>, n: Int32)
    requires n >= 1 && Count(ShowString(name), '?') == 0
    ensures Count(FunctionSql(name, n), '?') == n
  {
    var k := n - 1;
    assert Wrap32(n - 1) == k;
    CountCallString("{? = call ", ShowString(name), Placeholders(k));
    HeadCount();
    PlaceholdersShape(k);
  }

  lemma HeadCount()
    ensures Count("{? = call ", '?') == 1
  {
    CountAbsent(" = call ", '?');
    assert "{? = call "[1..][1..] == " = call ";
  }

  /** The overload a key selects: by index for an index-based key, by name
      (possibly null) otherwise. */
  function TargetOf(id: KeyId): (t: Target)
    ensures t.ByIndex? <==> id.index != None
    ensures t.ByIndex? ==> t.index == id.index.value
    ensures t.ByName? ==> t.name == id.name
  {
    if id.index != None then ByIndex(id.index.value) else ByName(id.name)
  }

  /** The one base call `setInput` makes: the untyped `setObject` when the
      type is null, the typed one otherwise, with the value unchanged. */
  function InputCall(id: KeyId, x: Datum, sqlType: Option<Int32>): (c: Call)
    ensures c.SetObject? || c.SetObjectTyped?
    ensures c.target == TargetOf(id) && c.x == x
    ensures c.SetObject? <==> sqlType == None
    ensures c.SetObjectTyped? ==> c.sqlType == sqlType.value
  {
    if sqlType == None then SetObject(TargetOf(id), x)
    else SetObjectTyped(TargetOf(id), x, sqlType.value)
  }

  /** The one base call `setOutput` makes: the two-argument
      `registerOutParameter` when the struct name is null, the three-argument
      one otherwise. */
  function OutputCall(id: KeyId, sqlType: Int32, structName: Option<string>): (c: Call)
    ensures c.RegisterOutParameter? || c.RegisterOutParameterTyped?
    ensures c.target == TargetOf(id) && c.sqlType == sqlType
    ensures c.RegisterOutParameter? <==> structName == None
    ensures c.RegisterOutParameterTyped? ==> c.typeName == structName.value
  {
    if structName == None then RegisterOutParameter(TargetOf(id), sqlType)
    else RegisterOutParameterTyped(TargetOf(id), sqlType, structName.value)
  }

  class Statement {
    const base: CallableStatement
    const sql: string

    /** The adapter's SQL text is the one its base statement was prepared from. */
    ghost predicate Valid()
    {
      base.sql == sql
    }

    /** The private constructor, after `connection.prepareCall(sql)` succeeded. */
    constructor (base: CallableStatement, sql: string)
      requires base.sql == sql
      ensures Valid() && this.base == base && this.sql == sql
    {
      this.base := base;
      this.sql := sql;
    }

    /** `new Statement(connection, sql)`: prepares the call, or throws. */
    static method Prepare(connection: Connection, sql: string) returns (r: Result<Statement>)
      ensures r.Err? <==> connection.refuses(sql)
      ensures r.Ok? ==> fresh(r.value) && fresh(r.value.base) && r.value.Valid()
      ensures r.Ok? ==> r.value.sql == sql && r.value.base.log == []
      ensures r.Ok? ==> r.value.base.fails == connection.fails && r.value.base.answer == connection.answer
    {
      var prepared := connection.PrepareCall(sql);
      if prepared.Err? {
        return Err(prepared.failure);
      }
      var s := new Statement(prepared.value, sql);
      return Ok(s);
    }

    /** `createFunction(connection, name, n)`. */
    static method CreateFunction(connection: Connection, name: Option<string>, parametersNumber: Int32)
      returns (r: Result<Statement>)
      ensures r.Err? <==> connection.refuses(FunctionSql(name, parametersNumber))
      ensures r.Ok? ==> fresh(r.value) && fresh(r.value.base) && r.value.Valid() && r.value.base.log == []
      ensures r.Ok? ==> r.value.GetSql() == FunctionSql(name, parametersNumber)
    {
      var parameters := CreateParameterString(Wrap32(parametersNumber - 1));
      var sql := "{? = call " + ShowString(name) + "(" + parameters + ")}";
      r := Prepare(connection, sql);
    }

    /** `createProcedure(connection, name, n)`. */
    static method CreateProcedure(connection: Connection, name: Option<string>, parametersNumber: Int32)
      returns (r: Result<Statement>)
      ensures r.Err? <==> connection.refuses(ProcedureSql(name, parametersNumber))
      ensures r.Ok? ==> fresh(r.value) && fresh(r.value.base) && r.value.Valid() && r.value.base.log == []
      ensures r.Ok? ==> r.value.GetSql() == ProcedureSql(name, parametersNumber)
    {
      var parameters := CreateParameterString(parametersNumber);
      var sql := "{call " + ShowString(name) + "(" + parameters + ")}";
      r := Prepare(connection, sql);
    }

    function GetBaseStatement(): CallableStatement
    {
      base
    }

    /** `getSql()`: the text the base statement was prepared from. */
    function GetSql(): (s: string)
      requires Valid()
      ensures s == base.sql
    {
      sql
    }

    /** `toString()`: the same text as `getSql()`. */
    function ToString(): (s: string)
      requires Valid()
      ensures s == base.sql && s == GetSql()
    {
      sql
    }

    /** `execute()`: one pass-through call. */
    method Execute() returns (r: Outcome)
      modifies base
      ensures base.log == old(base.log) + [Jdbc.Execute]
      ensures r == if base.fails(old(base.log), Jdbc.Execute) then Fail(SqlException) else Pass
    {
      r := base.Invoke(Jdbc.Execute);
    }

    /** `readOutput(key)`: `getObject` by index for an index-based key, by name otherwise. */
    method ReadOutput(key: ParameterKey) returns (r: Result<Datum>)
      modifies base
      ensures base.log == old(base.log) + [GetObject(TargetOf(key.Id()))]
      ensures r == if base.fails(old(base.log), GetObject(TargetOf(key.Id()))) then Err(SqlException)
                   else Ok(base.answer(TargetOf(key.Id())))
    {
      if key.IsIndexBased() {
        r := base.Read(ByIndex(key.GetIndex().value));
      } else {
        r := base.Read(ByName(key.GetName()));
      }
    }

    /** `setInput(key, input, sqlType)`: exactly one `setObject` call. */
    method SetInput(key: ParameterKey, input: Datum, sqlType: Option<Int32>) returns (r: Outcome)
      modifies base
      ensures base.log == old(base.log) + [InputCall(key.Id(), input, sqlType)]
      ensures r == if base.fails(old(base.log), InputCall(key.Id(), input, sqlType)) then Fail(SqlException) else Pass
    {
      if key.IsIndexBased() {
        if sqlType == None {
          r := base.Invoke(SetObject(ByIndex(key.GetIndex().value), input));
        } else {
          r := base.Invoke(SetObjectTyped(ByIndex(key.GetIndex().value), input, sqlType.value));
        }
      } else {
        if sqlType == None {
          r := base.Invoke(SetObject(ByName(key.GetName()), input));
        } else {
          r := base.Invoke(SetObjectTyped(ByName(key.GetName()), input, sqlType.value));
        }
      }
    }

    /** `setOutput(key, sqlType, structName)`: exactly one `registerOutParameter` call. */
    method SetOutput(key: ParameterKey, sqlType: Int32, structName: Option<string>) returns (r: Outcome)
      modifies base
      ensures base.log == old(base.log) + [OutputCall(key.Id(), sqlType, structName)]
      ensures r == if base.fails(old(base.log), OutputCall(key.Id(), sqlType, structName)) then Fail(SqlException) else Pass
    {
      if key.IsIndexBased() {
        if structName == None {
          r := base.Invoke(RegisterOutParameter(ByIndex(key.GetIndex().value), sqlType));
        } else {
          r := base.Invoke(RegisterOutParameterTyped(ByIndex(key.GetIndex().value), sqlType, structName.value));
        }
      } else {
        if structName == None {
          r := base.Invoke(RegisterOutParameter(ByName(key.GetName()), sqlType));
        } else {
          r := base.Invoke(RegisterOutParameterTyped(ByName(key.GetName()), sqlType, structName.value));
        }
      }
    }
  }
}
