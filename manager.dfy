/** `Manager`: the registry of the cell-based revision, an insertion ordered
    map from keys to records with optional input and output cells, and the
    bulk operations that push the records into a statement and read the
    outputs back.  Keys are compared with their own `equals`, which this
    model takes as Dafny equality on an arbitrary key type `K`. */
module Managers {
  import opened Wrappers
  import opened Lang
  import opened Converters
  import opened Values
  import opened LinkedMaps
  import opened Printing
  import opened ManagerSpec

  /** `Manager`'s record: an optional input cell, an optional output cell,
      the SQL type, the struct name, the encoder and the decoder. */
  class Parameter {
    var input: Value?
    var output: Value?
    var sqlType: Option<Int32>
    var struct: Option<string>
    var encoder: Option<Converter>
    var decoder: Option<Converter>

    /** `new Parameter()`: every field null. */
    constructor ()
      ensures Fields() == Record(null, null, None, None, None, None)
    {
      input := null;
      output := null;
      sqlType := None;
      struct := None;
      encoder := None;
      decoder := None;
    }

    function Fields(): Record
      reads this
    {
      Record(input, output, sqlType, struct, encoder, decoder)
    }
  }

  /** The statement `Manager` talks to, reduced to the three calls it makes:
      `input`, `output` and `read`.  Every call is recorded; which calls
      throw and what `read` returns are fixed by the driver and given as
      oracles. */
  class Adapter<K> {
    const fails: (seq<Call<K>>, Call<K>) -> bool
    const answer: K -> Datum
    var log: seq<Call<K>>

    constructor (fails: (seq<Call<K>>, Call<K>) -> bool, answer: K -> Datum)
      ensures this.fails == fails && this.answer == answer && log == []
    {
      this.fails := fails;
      this.answer := answer;
      log := [];
    }

    /** `input(key, value, type)`: recorded; may throw. */
    method Input(key: K, x: Datum, sqlType: Option<Int32>) returns (r: Outcome)
      modifies this
      ensures var run := Attempt(old(log), BindInput(key, x, sqlType), fails);
        log == run.log && r == run.outcome
    {
      var c := BindInput(key, x, sqlType);
      r := if fails(log, c) then Fail(SqlException) else Pass;
      log := log + [c];
    }

    /** `output(key, type, struct)`: recorded; may throw. */
    method Output(key: K, sqlType: Option<Int32>, struct: Option<string>) returns (r: Outcome)
      modifies this
      ensures var run := Attempt(old(log), RegisterOutput(key, sqlType, struct), fails);
        log == run.log && r == run.outcome
    {
      var c := RegisterOutput(key, sqlType, struct);
      r := if fails(log, c) then Fail(SqlException) else Pass;
      log := log + [c];
    }

    /** `read(key)`: recorded; returns the driver's answer unless it throws. */
    method Read(key: K) returns (r: Result<Datum>)
      modifies this
      ensures log == old(log) + [ReadOutput(key)]
      ensures r == if fails(old(log), ReadOutput(key)) then Err(SqlException) else Ok(answer(key))
    {
      r := if fails(log, ReadOutput(key)) then Err(SqlException) else Ok(answer(key));
      log := log + [ReadOutput(key)];
    }
  }

  ghost function ParamsOf<K>(m: LinkedMap<K, Parameter>): set<Parameter>
  {
    set k | k in m.entries :: m.entries[k]
  }

  /** The stored map is well formed and no record object is registered
      twice (each one `in` or `out` stores is new). */
  ghost predicate WellformedMap<K>(m: LinkedMap<K, Parameter>)
  {
    && m.Valid()
    && (forall a, b | a in m.entries && b in m.entries && a != b :: m.entries[a] != m.entries[b])
  }

  /** Storing a new record under a new key keeps the map well formed and
      adds exactly that record. */
  lemma PutWellformed<K>(m: LinkedMap<K, Parameter>, key: K, p: Parameter)
    requires WellformedMap(m) && key !in m.entries && p !in ParamsOf(m)
    ensures WellformedMap(m.Put(key, p))
    ensures ParamsOf(m.Put(key, p)) == ParamsOf(m) + {p}
    ensures m.Put(key, p).entries == m.entries[key := p]
    ensures m.Put(key, p).order == m.order + [key]
  {
    var m' := m.Put(key, p);
    PutProperties(m, key, p);
    forall q | q in ParamsOf(m) ensures q in ParamsOf(m') {
      var x :| x in m.entries && m.entries[x] == q;
      assert m'.entries[x] == m.entries[x];
    }
    assert m'.entries[key] == p;
  }

  /** Removing a key keeps the map well formed and only drops entries. */
  lemma RemoveWellformed<K>(m: LinkedMap<K, Parameter>, key: K)
    requires WellformedMap(m)
    ensures WellformedMap(m.Remove(key))
    ensures m.Remove(key).entries == m.entries - {key}
  {
    RemoveProperties(m, key);
  }

  /** What `getPrintedState` writes for one entry: `"<key> = <parameter>"`,
      with the key's and the record's `toString` given as functions. */
  function EntryText<K>(keyText: K -> string, recordText: Record -> string, key: K, record: Record): string
  {
    keyText(key) + " = " + recordText(record)
  }

  class Manager<K(==)> {
    var mappings: LinkedMap<K, Parameter>

    ghost function Params(): set<Parameter>
      reads this
    {
      ParamsOf(mappings)
    }

    /** The registered records' non-null input cells. */
    ghost function Inputs(): set<Value>
      reads this, Params()
    {
      set k | k in mappings.entries && mappings.entries[k].input != null :: mappings.entries[k].input
    }

    /** The registered records' non-null output cells. */
    ghost function Outputs(): set<Value>
      reads this, Params()
    {
      set k | k in mappings.entries && mappings.entries[k].output != null :: mappings.entries[k].output
    }

    ghost function Cells(): set<Value>
      reads this, Params()
    {
      Inputs() + Outputs()
    }

    /** The map is well formed and no two keys share a record. */
    ghost predicate Valid()
      reads this
    {
      WellformedMap(mappings)
    }

    /** No two keys share an output cell.  `in` and `out` keep this (each
        output cell `out` stores is new), but a caller can break it through
        a record's own setters; only `BindingOutputsDistinct` and the "old
        output is dropped" clauses of `in` and `out` rely on it. */
    ghost predicate OutputsDistinct()
      reads this, Params()
    {
      forall a, b | a in mappings.entries && b in mappings.entries && a != b && mappings.entries[a].output != null ::
        mappings.entries[a].output != mappings.entries[b].output
    }

    /** The registered records in iteration order, as values. */
    ghost function BindingsOf(ids: seq<K>): (bs: seq<Binding<K>>)
      requires forall k | k in ids :: k in mappings.entries
      reads this, Params()
      ensures |bs| == |ids|
      ensures forall i | 0 <= i < |ids| :: bs[i] == Binding(ids[i], mappings.entries[ids[i]].Fields())
      decreases |ids|
    {
      if ids == [] then []
      else [Binding(ids[0], mappings.entries[ids[0]].Fields())] + BindingsOf(ids[1..])
    }

    ghost function Bindings(): seq<Binding<K>>
      requires mappings.Valid()
      reads this, Params()
    {
      BindingsOf(mappings.order)
    }

    /** The contents of the registered cells. */
    ghost function Heap(): (h: Heap)
      requires mappings.Valid()
      reads this, Params(), Cells()
      ensures h.Keys == Cells()
      ensures Covers(Bindings(), h)
    {
      map c | c in Cells() :: c.value
    }

    /** What `getPrintedState` writes for the entries, in order. */
    ghost function EntriesOf(keyText: K -> string, recordText: Record -> string, ids: seq<K>): (es: seq<string>)
      requires forall k | k in ids :: k in mappings.entries
      reads this, Params()
      ensures |es| == |ids|
      decreases |ids|
    {
      if ids == [] then []
      else [EntryText(keyText, recordText, ids[0], mappings.entries[ids[0]].Fields())]
           + EntriesOf(keyText, recordText, ids[1..])
    }

    lemma {:induction false} EntriesOfAt(keyText: K -> string, recordText: Record -> string, ids: seq<K>, i: nat)
      requires forall k | k in ids :: k in mappings.entries
      requires i < |ids|
      ensures EntriesOf(keyText, recordText, ids)[i] == EntryText(keyText, recordText, ids[i], mappings.entries[ids[i]].Fields())
      decreases i
    {
      if i > 0 {
        EntriesOfAt(keyText, recordText, ids[1..], i - 1);
      }
    }

    /** `new Manager()`: no parameters. */
    constructor ()
      ensures Valid() && OutputsDistinct() && mappings.order == [] && GetParametersCount() == 0
    {
      mappings := Empty();
    }

    /** `getParameter(key)`: the record registered under an equal key, or null. */
    function GetParameter(key: K): (p: Parameter?)
      reads this
      ensures p == null <==> key !in mappings.entries
      ensures p != null ==> p == mappings.entries[key]
    {
      match mappings.Get(key)
      case None => null
      case Some(p) => p
    }

    /** `getParametersCount()`: the number of registered keys. */
    function GetParametersCount(): (n: nat)
      requires mappings.Valid()
      reads this
      ensures n == |mappings.entries|
    {
      SizeIsEntryCount(mappings);
      mappings.Size()
    }

    /** No two records share an output cell, so the bindings' output cells
        are pairwise different objects. */
    lemma BindingOutputsDistinct()
      requires Valid() && OutputsDistinct()
      ensures OutputCellsDistinct(Bindings())
    {
      var bs := Bindings();
      forall i, j | 0 <= i < j < |bs| && bs[i].record.output != null
        ensures bs[i].record.output != bs[j].record.output
      {
        assert mappings.order[i] != mappings.order[j];
      }
    }

    /** `merge(key, parameter)`: stores `parameter` under a new key, at the
        end of the iteration order; under a present key it keeps the
        registered record object and its position, and overwrites all six
        of its fields with `parameter`'s, null ones included.  Either way
        the registered record ends with `parameter`'s fields. */
    method Merge(key: K, parameter: Parameter) returns (result: Parameter)
      requires Valid()
      requires parameter !in Params()
      requires parameter.output != null ==> parameter.output !in Outputs()
      modifies this, Params()
      ensures Valid() && key in mappings.entries && result == mappings.entries[key]
      ensures old(OutputsDistinct()) ==> OutputsDistinct()
      ensures result.Fields() == old(parameter.Fields())
      ensures parameter != result ==> unchanged(parameter)
      ensures forall p | p in old(Params()) && p != result :: unchanged(p)
      ensures old(key !in mappings.entries) ==>
        && mappings == old(mappings).Put(key, parameter) && result == parameter
        && mappings.order == old(mappings.order) + [key]
        && GetParametersCount() == old(GetParametersCount()) + 1
      ensures old(key in mappings.entries) ==> mappings == old(mappings) && result == old(mappings.entries[key])
    {
      match mappings.Get(key)
      case None =>
        PutWellformed(mappings, key, parameter);
        mappings := mappings.Put(key, parameter);
        result := parameter;
      case Some(p) =>
        result := p;
        result.decoder := parameter.decoder;
        result.encoder := parameter.encoder;
        result.input := parameter.input;
        result.output := parameter.output;
        result.struct := parameter.struct;
        result.sqlType := parameter.sqlType;
    }

    /** `in(key, value, type, encoder)`: the record under `key` gets `input`
        (`value`) as its input cell, the type and the encoder, and no output, struct
        name or decoder.  An earlier output cell of that key is no longer
        any record's output, so `parseAll` will never write it again. */
    method In(key: K, input: Value?, sqlType: Option<Int32>, encoder: Option<Converter>)
      requires Valid()
      modifies this, Params()
      ensures Valid() && key in mappings.entries
      ensures mappings.entries[key].Fields() == Record(input, null, sqlType, None, encoder, None)
      ensures old(key !in mappings.entries) ==>
        && fresh(mappings.entries[key]) && mappings == old(mappings).Put(key, mappings.entries[key])
        && mappings.order == old(mappings.order) + [key]
      ensures old(key in mappings.entries) ==> mappings == old(mappings)
      ensures forall p | p in old(Params()) && p != mappings.entries[key] :: unchanged(p)
      ensures old(OutputsDistinct()) ==> OutputsDistinct()
      ensures old(OutputsDistinct() && key in mappings.entries && mappings.entries[key].output != null) ==>
        old(mappings.entries[key].output) !in Outputs()
    {
      var parameter := NewInput(input, sqlType, encoder);
      var result := Merge(key, parameter);
    }

    /** `out(key, type, struct, decoder)`: the record under `key` gets a new
        empty output cell, the type, the struct name and the decoder, and no
        input or encoder; the new cell is returned, whether the key was new
        or present.  An earlier output cell of that key is dropped. */
    method Out(key: K, sqlType: Int32, struct: Option<string>, decoder: Option<Converter>) returns (cell: Value)
      requires Valid()
      modifies this, Params()
      ensures Valid() && key in mappings.entries
      ensures fresh(cell) && cell.value == Null
      ensures mappings.entries[key].Fields() == Record(null, cell, Some(sqlType), struct, None, decoder)
      ensures old(key !in mappings.entries) ==>
        && fresh(mappings.entries[key]) && mappings == old(mappings).Put(key, mappings.entries[key])
        && mappings.order == old(mappings.order) + [key]
      ensures old(key in mappings.entries) ==> mappings == old(mappings)
      ensures forall p | p in old(Params()) && p != mappings.entries[key] :: unchanged(p)
      ensures old(OutputsDistinct()) ==> OutputsDistinct()
      ensures old(OutputsDistinct() && key in mappings.entries && mappings.entries[key].output != null) ==>
        old(mappings.entries[key].output) !in Outputs()
    {
      var parameter := NewOutput(sqlType, struct, decoder);
      var result := Merge(key, parameter);
      cell := result.output;
    }

    /** `remove(key)`: unregisters the record of an equal key, if any; the
        other keys keep their records and their order. */
    method Remove(key: K)
      requires Valid()
      modifies this
      ensures Valid() && (old(OutputsDistinct()) ==> OutputsDistinct())
      ensures mappings == old(mappings).Remove(key)
      ensures GetParameter(key) == null
      ensures forall k | k != key :: mappings.Get(k) == old(mappings).Get(k)
    {
      RemoveWellformed(mappings, key);
      mappings := mappings.Remove(key);
    }

    /** `removeAll()`: unregisters every record. */
    method RemoveAll()
      modifies this
      ensures Valid() && OutputsDistinct() && mappings.order == [] && GetParametersCount() == 0
    {
      mappings := Empty();
    }

    /** `setupAll(connection, statement)`: for each record in iteration
        order, binds its (encoded) input value and then registers its
        output, where the record has them; stops at the first exception.
        The calls made and the outcome are those of `Setup`. */
    method SetupAll(process: Process, statement: Adapter<K>) returns (r: Outcome)
      requires Valid()
      modifies statement
      ensures var run := Setup(old(Bindings()), old(Heap()), process, statement.fails, old(statement.log));
        statement.log == run.log && r == run.outcome
    {
      var ids := mappings.order;
      ghost var bs := Bindings();
      ghost var heap := Heap();
      ghost var fails := statement.fails;
      ghost var log0 := statement.log;
      var i := 0;
      while i < |ids|
        invariant 0 <= i <= |ids|
        invariant Setup(bs, heap, process, fails, log0) == Setup(bs[i..], heap, process, fails, statement.log)
      {
        assert bs[i..][0] == bs[i] && bs[i..][1..] == bs[i + 1..];
        var parameter := mappings.entries[ids[i]];
        assert bs[i] == Binding(ids[i], parameter.Fields());
        ghost var log := statement.log;
        ghost var one := SetupOne(bs[i], heap, process, fails, log);
        assert Setup(bs[i..], heap, process, fails, log) ==
          if one.outcome.Fail? then one else Setup(bs[i + 1..], heap, process, fails, one.log);
        var o := SetupEntry(ids[i], parameter, process, statement, heap);
        if o.Fail? {
          return o;
        }
        i := i + 1;
      }
      return Pass;
    }

    /** `parseAll(connection, statement)`: for each record with an output
        cell, in iteration order, reads the statement's value, decodes it
        and stores it in the cell; stops at the first exception.  The calls
        made, the new cell contents and the outcome are those of `Parse`. */
    method ParseAll(process: Process, statement: Adapter<K>) returns (r: Outcome)
      requires Valid()
      modifies statement, Outputs()
      ensures var run := Parse(old(Bindings()), old(Heap()), process, statement.fails, statement.answer,
                               old(statement.log));
        statement.log == run.log && r == run.outcome && Mirrors(old(Cells()), run.heap)
    {
      var ids := mappings.order;
      ghost var bs := Bindings();
      ghost var heap := Heap();
      ghost var heap0 := heap;
      ghost var fails := statement.fails;
      ghost var answer := statement.answer;
      ghost var log0 := statement.log;
      ghost var cells := Cells();
      HeapMirrors();
      var i := 0;
      while i < |ids|
        invariant 0 <= i <= |ids|
        invariant Mirrors(cells, heap)
        invariant Parse(bs, heap0, process, fails, answer, log0) == Parse(bs[i..], heap, process, fails, answer, statement.log)
      {
        assert bs[i..][0] == bs[i] && bs[i..][1..] == bs[i + 1..];
        var parameter := mappings.entries[ids[i]];
        assert bs[i] == Binding(ids[i], parameter.Fields());
        assert parameter.output != null ==> parameter.output in Outputs();
        ghost var log := statement.log;
        ghost var one := ParseOne(bs[i], heap, process, fails, answer, log);
        assert Parse(bs[i..], heap, process, fails, answer, log) ==
          if one.outcome.Fail? then one else Parse(bs[i + 1..], one.heap, process, fails, answer, one.log);
        var o;
        o, heap := ParseEntry(ids[i], parameter, process, statement, cells, heap);
        if o.Fail? {
          return o;
        }
        i := i + 1;
      }
      return Pass;
    }

    lemma HeapMirrors()
      requires mappings.Valid()
      ensures Mirrors(Cells(), Heap())
    {
    }

    /** `getPrintedState()`: the entries `"<key> = <parameter>"` in
        iteration order, separated by `", "`. */
    method GetPrintedState(keyText: K -> string, recordText: Record -> string) returns (s: string)
      requires Valid()
      ensures s == Joined(EntriesOf(keyText, recordText, mappings.order))
      ensures mappings.order == [] ==> s == ""
    {
      var ids := mappings.order;
      ghost var es := EntriesOf(keyText, recordText, ids);
      var index := 1;
      var result := "";
      var i := 0;
      while i < |ids|
        invariant 0 <= i <= |ids| && index == i + 1
        invariant result == Printed(es, i) && es == EntriesOf(keyText, recordText, ids)
      {
        var key := ids[i];
        var parameter := mappings.entries[key];
        EntriesOfAt(keyText, recordText, ids, i);
        var entry := keyText(key) + " = " + recordText(parameter.Fields());
        PrintedNext(es, i, result, entry);
        result := result + entry;
        if index < mappings.Size() {
          result := result + ", ";
        }
        index := index + 1;
        i := i + 1;
      }
      PrintedAll(es);
      return result;
    }
  }

  /** The record `in` builds before merging it. */
  method NewInput(input: Value?, sqlType: Option<Int32>, encoder: Option<Converter>) returns (parameter: Parameter)
    ensures fresh(parameter)
    ensures parameter.Fields() == Record(input, null, sqlType, None, encoder, None)
  {
    parameter := new Parameter();
    parameter.input := input;
    parameter.sqlType := sqlType;
    parameter.encoder := encoder;
  }

  /** The record `out` builds before merging it: a new empty output cell. */
  method NewOutput(sqlType: Int32, struct: Option<string>, decoder: Option<Converter>) returns (parameter: Parameter)
    ensures fresh(parameter) && parameter.output != null && fresh(parameter.output)
    ensures parameter.Fields() == Record(null, parameter.output, Some(sqlType), struct, None, decoder)
    ensures parameter.output.value == Null
  {
    parameter := new Parameter();
    var empty := new Value();
    parameter.output := empty;
    parameter.sqlType := Some(sqlType);
    parameter.struct := struct;
    parameter.decoder := decoder;
  }

  /** One pass of the `setupAll` loop: the record's input binding, then its
      output registration, as `SetupOne` says. */
  method SetupEntry<K>(key: K, parameter: Parameter, process: Process, statement: Adapter<K>, ghost heap: Heap)
    returns (r: Outcome)
    requires Known(Binding(key, parameter.Fields()), heap)
    requires parameter.input != null ==> heap[parameter.input] == parameter.input.value
    modifies statement
    ensures var run := SetupOne(Binding(key, parameter.Fields()), heap, process, statement.fails, old(statement.log));
      statement.log == run.log && r == run.outcome
  {
    if parameter.input != null {
      var value := Apply(parameter.encoder, parameter.input.value, process);
      if value.Err? {
        return Fail(value.failure);
      }
      r := statement.Input(key, value.value, parameter.sqlType);
      if r.Fail? {
        return;
      }
    }
    if parameter.output != null {
      r := statement.Output(key, parameter.sqlType, parameter.struct);
    } else {
      r := Pass;
    }
  }

  /** One pass of the `parseAll` loop: read, decode and store, as `ParseOne` says. */
  method ParseEntry<K>(key: K, parameter: Parameter, process: Process, statement: Adapter<K>,
                       ghost cells: set<Value>, ghost heap: Heap)
    returns (r: Outcome, ghost heap': Heap)
    requires Mirrors(cells, heap)
    requires parameter.output != null ==> parameter.output in cells
    modifies statement, parameter.output
    ensures var run := ParseOne(Binding(key, old(parameter.Fields())), heap, process,
                                statement.fails, statement.answer, old(statement.log));
      statement.log == run.log && r == run.outcome && heap' == run.heap
    ensures Mirrors(cells, heap')
  {
    heap' := heap;
    if parameter.output != null {
      var output := statement.Read(key);
      if output.Err? {
        return Fail(output.failure), heap';
      }
      var decoded := Apply(parameter.decoder, output.value, process);
      if decoded.Err? {
        return Fail(decoded.failure), heap';
      }
      parameter.output.value := decoded.value;
      heap' := heap[parameter.output := decoded.value];
    }
    r := Pass;
  }
}
