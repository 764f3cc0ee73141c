/** `DataManager`: the registry of the flag-based revision, an insertion
    ordered map from parameter keys to `Parameter` records, and the bulk
    operations that push them into a `Statement` and read outputs back. */
module DataManagers {
  import opened Wrappers
  import opened Lang
  import opened Converters
  import opened Values
  import opened ParameterKeys
  import opened Parameters
  import opened Jdbc
  import opened Statements
  import opened LinkedMaps
  import opened Printing
  import opened DataManagerSpec

  /** One map entry: the key object that was first stored for this key and
      the registered parameter. */
  datatype Slot = Slot(key: ParameterKey, parameter: Parameter)

  /** What `getPrintedState` writes for one entry: `"<key> = <parameter>"`. */
  function EntryText(slot: Slot): string
    reads slot.parameter, slot.parameter.value
  {
    slot.key.Text() + " = " + slot.parameter.ToString()
  }

  ghost function ParamsOf(m: LinkedMap<KeyId, Slot>): set<Parameter>
  {
    set id | id in m.entries :: m.entries[id].parameter
  }

  /** The stored map is well formed, every entry is filed under its key
      object's index and name, and no parameter object is registered twice
      (each one `setInput` or `setOutput` stores is new). */
  ghost predicate WellformedMap(m: LinkedMap<KeyId, Slot>)
  {
    && m.Valid()
    && (forall id | id in m.entries :: m.entries[id].key.Id() == id)
    && (forall a, b | a in m.entries && b in m.entries && a != b :: m.entries[a].parameter != m.entries[b].parameter)
  }

  /** Storing a new parameter under a new key keeps the map well formed and
      adds exactly that parameter. */
  lemma PutWellformed(m: LinkedMap<KeyId, Slot>, key: ParameterKey, p: Parameter)
    requires WellformedMap(m) && key.Id() !in m.entries && p !in ParamsOf(m)
    ensures WellformedMap(m.Put(key.Id(), Slot(key, p)))
    ensures ParamsOf(m.Put(key.Id(), Slot(key, p))) == ParamsOf(m) + {p}
    ensures m.Put(key.Id(), Slot(key, p)).entries == m.entries[key.Id() := Slot(key, p)]
  {
    var id := key.Id();
    var m' := m.Put(id, Slot(key, p));
    PutProperties(m, id, Slot(key, p));
    forall q | q in ParamsOf(m) ensures q in ParamsOf(m') {
      var x :| x in m.entries && m.entries[x].parameter == q;
      assert m'.entries[x] == m.entries[x];
    }
    assert m'.entries[id].parameter == p;
  }

  /** Removing a key keeps the map well formed and only drops entries. */
  lemma RemoveWellformed(m: LinkedMap<KeyId, Slot>, id: KeyId)
    requires WellformedMap(m)
    ensures WellformedMap(m.Remove(id))
    ensures m.Remove(id).entries == m.entries - {id}
  {
    RemoveProperties(m, id);
  }

  class DataManager {
    /** `LinkedHashMap` keyed by `ParameterKey.equals`, which compares the
        index and the name (lemma `EqualsIffSameFields`), so it is keyed here
        by those two fields. */
    var mappings: LinkedMap<KeyId, Slot>

    ghost function Params(): set<Parameter>
      reads this
    {
      ParamsOf(mappings)
    }

    /** The registered parameters' non-null cells. */
    ghost function Cells(): set<Value>
      reads this, Params()
    {
      set id | id in mappings.entries && mappings.entries[id].parameter.value != null :: mappings.entries[id].parameter.value
    }

    ghost predicate Valid()
      reads this
    {
      WellformedMap(mappings)
    }

    /** No two keys share a cell.  `setInput` and `setOutput` keep this
        (each cell they store is new, and `merge` keeps the registered
        cell), but a caller can break it through `Parameter.setValue`. */
    ghost predicate CellsDistinct()
      reads this, Params()
    {
      forall a, b | a in mappings.entries && b in mappings.entries && a != b && mappings.entries[a].parameter.value != null ::
        mappings.entries[a].parameter.value != mappings.entries[b].parameter.value
    }

    /** With no cell shared, the outputs' cells in iteration order are
        pairwise different, as `ParseStoresDecodedAnswers` needs. */
    lemma BindingCellsDistinct()
      requires Valid() && CellsDistinct()
      ensures OutputCellsDistinct(Bindings())
    {
      var bs := Bindings();
      forall i, j | 0 <= i < j < |bs| && bs[i].record.output && bs[j].record.output && bs[i].record.value != null
        ensures bs[i].record.value != bs[j].record.value
      {
        var a, b := mappings.order[i], mappings.order[j];
        assert a != b && a in mappings.entries && b in mappings.entries;
        assert bs[i].record == mappings.entries[a].parameter.Fields();
        assert bs[j].record == mappings.entries[b].parameter.Fields();
      }
    }

    /** The registered parameters in iteration order, as values. */
    ghost function BindingsOf(ids: seq<KeyId>): (bs: seq<Binding>)
      requires forall id | id in ids :: id in mappings.entries
      reads this, Params()
      ensures |bs| == |ids|
      ensures forall i | 0 <= i < |ids| :: bs[i] == Binding(ids[i], mappings.entries[ids[i]].parameter.Fields())
      decreases |ids|
    {
      if ids == [] then []
      else [Binding(ids[0], mappings.entries[ids[0]].parameter.Fields())] + BindingsOf(ids[1..])
    }

    ghost function Bindings(): seq<Binding>
      requires mappings.Valid()
      reads this, Params()
    {
      BindingsOf(mappings.order)
    }

    /** The contents of the registered cells. */
    ghost function Heap(): (h: Heap)
      requires mappings.Valid()
      reads this, Params(), Cells()
      ensures h.Keys == Cells()
      ensures Covers(Bindings(), h)
    {
      map c | c in Cells() :: c.value
    }

    /** What `getPrintedState` writes for the entries, in order. */
    ghost function EntriesOf(ids: seq<KeyId>): (es: seq<string>)
      requires forall id | id in ids :: id in mappings.entries
      reads this, Params(), Cells()
      ensures |es| == |ids|
      decreases |ids|
    {
      if ids == [] then [] else [EntryText(mappings.entries[ids[0]])] + EntriesOf(ids[1..])
    }

    lemma {:induction false} EntriesOfAt(ids: seq<KeyId>, i: nat)
      requires forall id | id in ids :: id in mappings.entries
      requires i < |ids|
      ensures EntriesOf(ids)[i] == EntryText(mappings.entries[ids[i]])
      decreases i
    {
      if i > 0 {
        EntriesOfAt(ids[1..], i - 1);
      }
    }

    /** `new DataManager()`: no parameters. */
    constructor ()
      ensures Valid() && CellsDistinct() && mappings.order == [] && GetParametersCount() == 0
    {
      mappings := Empty();
    }

    /** `getParameter(key)`: the parameter registered under an equal key, or null. */
    function GetParameter(key: ParameterKey): (p: Parameter?)
      reads this
      ensures p == null <==> key.Id() !in mappings.entries
      ensures p != null ==> p == mappings.entries[key.Id()].parameter
    {
      match mappings.Get(key.Id())
      case None => null
      case Some(slot) => slot.parameter
    }

    /** `getParametersCount()`: the number of registered keys. */
    function GetParametersCount(): (n: nat)
      requires mappings.Valid()
      reads this
      ensures n == |mappings.entries|
    {
      SizeIsEntryCount(mappings);
      mappings.Size()
    }

    /** `merge(key, parameter)`: stores `parameter` under a new key, or merges
        it into the parameter already registered under an equal key; returns
        the registered parameter. */
    method Merge(key: ParameterKey, parameter: Parameter) returns (result: Parameter, r: Outcome)
      requires Valid()
      requires parameter !in Params()
      modifies this, Params(), Cells()
      ensures Valid() && key.Id() in mappings.entries && result == mappings.entries[key.Id()].parameter
      ensures old(CellsDistinct()) && (old(parameter.value) != null ==> old(parameter.value) !in old(Cells())) ==>
        CellsDistinct()
      ensures parameter != result ==> unchanged(parameter)
      ensures old(key.Id() !in mappings.entries) ==>
        && mappings == old(mappings).Put(key.Id(), Slot(key, parameter))
        && result == parameter && r == Pass
        && unchanged(old(Params())) && unchanged(old(Cells()))
      ensures old(key.Id() in mappings.entries) ==>
        && mappings == old(mappings)
        && result.Fields() == Merged(old(result.Fields()), old(parameter.Fields()))
        && r == (if MergeThrows(old(result.Fields()), old(parameter.Fields())) then Fail(NullPointerException) else Pass)
        && (r.Pass? && parameter.input ==> result.value.value == old(parameter.value.value))
        && (forall p | p in old(Params()) && p != result :: unchanged(p))
        && (forall c | c in old(Cells()) && (c != result.value || !parameter.input || r.Fail?) :: unchanged(c))
    {
      var id := key.Id();
      match mappings.Get(id)
      case None =>
        PutWellformed(mappings, key, parameter);
        mappings := mappings.Put(id, Slot(key, parameter));
        result, r := parameter, Pass;
      case Some(slot) =>
        result := slot.parameter;
        r := result.Merge(parameter);
    }

    /** `setInput(key, value, sqlType, encoder)`: registers an input whose
        cell holds `value`, or merges it into the parameter already
        registered: that parameter becomes an input (keeping its output
        flag), takes the new type and encoder, loses its decoder and struct
        name, and its own cell receives `value`.  That copy throws
        `NullPointerException` when the registered cell was set to null. */
    method SetInput(key: ParameterKey, value: Datum, sqlType: Option<Int32>, encoder: Option<Converter>)
      returns (r: Outcome)
      requires Valid()
      modifies this, Params(), Cells()
      ensures Valid() && key.Id() in mappings.entries
      ensures old(CellsDistinct()) ==> CellsDistinct()
      ensures old(key.Id() !in mappings.entries) ==>
        var p := mappings.entries[key.Id()].parameter;
        && mappings == old(mappings).Put(key.Id(), Slot(key, p))
        && fresh(p) && p.value != null && fresh(p.value)
        && p.Fields() == Record(None, encoder, true, false, sqlType, None, p.value)
        && p.value.value == value && r == Pass
        && unchanged(old(Params())) && unchanged(old(Cells()))
      ensures old(key.Id() in mappings.entries) ==>
        var p := mappings.entries[key.Id()].parameter;
        && mappings == old(mappings)
        && p.Fields() == old(p.Fields()).(decoder := None, encoder := encoder, input := true,
                                            sqlType := sqlType, structName := None)
        && (r == Pass <==> p.value != null) && (r.Fail? ==> r == Fail(NullPointerException))
        && (p.value != null ==> p.value.value == value)
        && (forall q | q in old(Params()) && q != p :: unchanged(q))
        && (forall c | c in old(Cells()) && c != p.value :: unchanged(c))
    {
      var parameter := NewInput(value, sqlType, encoder);
      assert parameter.value !in Cells();
      var result;
      result, r := Merge(key, parameter);
    }

    /** `setOutput(key, sqlType, structName, decoder)`: registers an output
        with a new empty cell, or merges it into the parameter already
        registered: that parameter becomes an output (keeping its input
        flag and its cell's content), takes the new type, struct name and
        decoder and loses its encoder.  Returns the registered parameter's
        cell, so after `setInput` on an equal key it is the cell holding
        the input value. */
    method SetOutput(key: ParameterKey, sqlType: Option<Int32>, structName: Option<string>, decoder: Option<Converter>)
      returns (cell: Value?)
      requires Valid()
      modifies this, Params(), Cells()
      ensures Valid() && key.Id() in mappings.entries
      ensures old(CellsDistinct()) ==> CellsDistinct()
      ensures cell == mappings.entries[key.Id()].parameter.value
      ensures old(key.Id() !in mappings.entries) ==>
        var p := mappings.entries[key.Id()].parameter;
        && mappings == old(mappings).Put(key.Id(), Slot(key, p))
        && fresh(p) && cell != null && fresh(cell)
        && p.Fields() == Record(decoder, None, false, true, sqlType, structName, cell)
        && cell.value == Null
      ensures old(key.Id() in mappings.entries) ==>
        var p := mappings.entries[key.Id()].parameter;
        && mappings == old(mappings)
        && p.Fields() == old(p.Fields()).(decoder := decoder, encoder := None, output := true,
                                            sqlType := sqlType, structName := structName)
      ensures forall q | q in old(Params()) && q != mappings.entries[key.Id()].parameter :: unchanged(q)
      ensures unchanged(old(Cells()))
    {
      var parameter := NewOutput(sqlType, structName, decoder);
      assert parameter.value !in Cells();
      var result, r := Merge(key, parameter);
      cell := result.GetValue();
    }

    /** `remove(key)`: unregisters the parameter of an equal key, if any. */
    method Remove(key: ParameterKey)
      requires Valid()
      modifies this
      ensures Valid() && (old(CellsDistinct()) ==> CellsDistinct())
      ensures mappings == old(mappings).Remove(key.Id())
      ensures GetParameter(key) == null
      ensures forall id | id != key.Id() :: mappings.Get(id) == old(mappings).Get(id)
    {
      RemoveWellformed(mappings, key.Id());
      mappings := mappings.Remove(key.Id());
    }

    /** `removeAll()`: unregisters every parameter. */
    method RemoveAll()
      modifies this
      ensures Valid() && CellsDistinct() && mappings.order == [] && GetParametersCount() == 0
    {
      mappings := Empty();
    }

    /** `setupAll(connection, statement)`: for each parameter in iteration
        order, binds its (encoded) input value and then registers it as an
        output, as flagged; stops at the first exception.  The calls made
        and the outcome are those of `Setup`. */
    method SetupAll(process: Process, statement: Statement) returns (r: Outcome)
      requires Valid()
      modifies statement.base
      ensures var run := Setup(old(Bindings()), old(Heap()), process, statement.base.fails, old(statement.base.log));
        statement.base.log == run.log && r == run.outcome
    {
      var ids := mappings.order;
      ghost var bs := Bindings();
      ghost var heap := Heap();
      ghost var fails := statement.base.fails;
      ghost var log0 := statement.base.log;
      var i := 0;
      while i < |ids|
        invariant 0 <= i <= |ids|
        invariant Setup(bs, heap, process, fails, log0) == Setup(bs[i..], heap, process, fails, statement.base.log)
      {
        assert bs[i..][0] == bs[i] && bs[i..][1..] == bs[i + 1..];
        var slot := mappings.entries[ids[i]];
        assert bs[i] == Binding(slot.key.Id(), slot.parameter.Fields());
        ghost var log := statement.base.log;
        ghost var one := SetupOne(bs[i], heap, process, fails, log);
        assert Setup(bs[i..], heap, process, fails, log) ==
          if one.outcome.Fail? then one else Setup(bs[i + 1..], heap, process, fails, one.log);
        var o := SetupEntry(slot, process, statement, heap);
        if o.Fail? {
          return o;
        }
        i := i + 1;
      }
      return Pass;
    }

    /** `parseAll(connection, statement)`: for each output in iteration
        order, reads the statement's value, decodes it and stores it in the
        parameter's cell; stops at the first exception.  The calls made,
        the new cell contents and the outcome are those of `Parse`. */
    method ParseAll(process: Process, statement: Statement) returns (r: Outcome)
      requires Valid()
      modifies statement.base, Cells()
      ensures var run := Parse(old(Bindings()), old(Heap()), process, statement.base.fails, statement.base.answer,
                               old(statement.base.log));
        statement.base.log == run.log && r == run.outcome && Mirrors(old(Cells()), run.heap)
    {
      var ids := mappings.order;
      ghost var bs := Bindings();
      ghost var heap := Heap();
      ghost var heap0 := heap;
      ghost var fails := statement.base.fails;
      ghost var answer := statement.base.answer;
      ghost var log0 := statement.base.log;
      ghost var cells := Cells();
      HeapMirrors();
      var i := 0;
      while i < |ids|
        invariant 0 <= i <= |ids|
        invariant Mirrors(cells, heap)
        invariant Parse(bs, heap0, process, fails, answer, log0) == Parse(bs[i..], heap, process, fails, answer, statement.base.log)
      {
        assert bs[i..][0] == bs[i] && bs[i..][1..] == bs[i + 1..];
        var slot := mappings.entries[ids[i]];
        assert bs[i] == Binding(slot.key.Id(), slot.parameter.Fields());
        assert slot.parameter.value != null ==> slot.parameter.value in cells;
        ghost var log := statement.base.log;
        ghost var one := ParseOne(bs[i], heap, process, fails, answer, log);
        assert Parse(bs[i..], heap, process, fails, answer, log) ==
          if one.outcome.Fail? then one else Parse(bs[i + 1..], one.heap, process, fails, answer, one.log);
        var o;
        o, heap := ParseEntry(slot, process, statement, cells, heap);
        if o.Fail? {
          return o;
        }
        i := i + 1;
      }
      return Pass;
    }

    lemma HeapMirrors()
      requires mappings.Valid()
      ensures Mirrors(Cells(), Heap())
    {
    }

    /** `getPrintedState()`: the entries `"<key> = <parameter>"` in
        iteration order, separated by `", "`.  Each key is rendered by its
        `toString` text without filling the key's cache. */
    method GetPrintedState() returns (s: string)
      requires Valid()
      ensures s == Joined(EntriesOf(mappings.order))
      ensures mappings.order == [] ==> s == ""
    {
      var ids := mappings.order;
      ghost var es := EntriesOf(ids);
      var index := 1;
      var result := "";
      var i := 0;
      while i < |ids|
        invariant 0 <= i <= |ids| && index == i + 1
        invariant result == Printed(es, i) && es == EntriesOf(ids)
      {
        var slot := mappings.entries[ids[i]];
        EntriesOfAt(ids, i);
        var entry := slot.key.Text() + " = " + slot.parameter.ToString();
        PrintedNext(es, i, result, entry);
        result := result + entry;
        if index < mappings.Size() {
          result := result + ", ";
        }
        index := index + 1;
        i := i + 1;
      }
      PrintedAll(es);
      return result;
    }

    /** `toString()`: a fixed text. */
    function ToString(): string
    {
      "data manager"
    }
  }

  /** The parameter `setInput` builds before merging it: an input whose new
      cell holds `value`. */
  method NewInput(value: Datum, sqlType: Option<Int32>, encoder: Option<Converter>) returns (parameter: Parameter)
    ensures fresh(parameter) && parameter.value != null && fresh(parameter.value)
    ensures parameter.Fields() == Record(None, encoder, true, false, sqlType, None, parameter.value)
    ensures parameter.value.value == value
  {
    parameter := new Parameter();
    parameter.SetInput(true);
    var cell := new Value.Holding(value);
    parameter.SetValue(cell);
    parameter.SetSqlType(sqlType);
    parameter.SetEncoder(encoder);
  }

  /** The parameter `setOutput` builds before merging it: an output with a new empty cell. */
  method NewOutput(sqlType: Option<Int32>, structName: Option<string>, decoder: Option<Converter>)
    returns (parameter: Parameter)
    ensures fresh(parameter) && parameter.value != null && fresh(parameter.value)
    ensures parameter.Fields() == Record(decoder, None, false, true, sqlType, structName, parameter.value)
    ensures parameter.value.value == Null
  {
    parameter := new Parameter();
    parameter.SetOutput(true);
    var empty := new Value();
    parameter.SetValue(empty);
    parameter.SetSqlType(sqlType);
    parameter.SetStructName(structName);
    parameter.SetDecoder(decoder);
  }

  /** One pass of the `setupAll` loop: the parameter's input binding, then
      its output registration, as `SetupOne` says. */
  method SetupEntry(slot: Slot, process: Process, statement: Statement, ghost heap: Heap) returns (r: Outcome)
    requires Known(Binding(slot.key.Id(), slot.parameter.Fields()), heap)
    requires slot.parameter.value != null ==> heap[slot.parameter.value] == slot.parameter.value.value
    modifies statement.base
    ensures var run := SetupOne(Binding(slot.key.Id(), slot.parameter.Fields()), heap, process,
                                statement.base.fails, old(statement.base.log));
      statement.base.log == run.log && r == run.outcome
  {
    var parameter := slot.parameter;
    if parameter.IsInput() {
      if parameter.GetValue() == null {
        return Fail(NullPointerException);
      }
      var value := Apply(parameter.GetEncoder(), parameter.GetValue().GetValue(), process);
      if value.Err? {
        return Fail(value.failure);
      }
      r := statement.SetInput(slot.key, value.value, parameter.GetSqlType());
      if r.Fail? {
        return;
      }
    }
    if parameter.IsOutput() {
      if parameter.GetSqlType() == None {
        return Fail(NullPointerException);
      }
      r := statement.SetOutput(slot.key, parameter.GetSqlType().value, parameter.GetStructName());
    } else {
      r := Pass;
    }
  }

  /** One pass of the `parseAll` loop: read, decode and store, as `ParseOne` says. */
  method ParseEntry(slot: Slot, process: Process, statement: Statement, ghost cells: set<Value>, ghost heap: Heap)
    returns (r: Outcome, ghost heap': Heap)
    requires Mirrors(cells, heap)
    requires slot.parameter.value != null ==> slot.parameter.value in cells
    modifies statement.base, slot.parameter.value
    ensures var run := ParseOne(Binding(slot.key.Id(), old(slot.parameter.Fields())), heap, process,
                                statement.base.fails, statement.base.answer, old(statement.base.log));
      statement.base.log == run.log && r == run.outcome && heap' == run.heap
    ensures Mirrors(cells, heap')
  {
    var parameter := slot.parameter;
    heap' := heap;
    if parameter.IsOutput() {
      var output := statement.ReadOutput(slot.key);
      if output.Err? {
        return Fail(output.failure), heap';
      }
      var decoded := Apply(parameter.GetDecoder(), output.value, process);
      if decoded.Err? {
        return Fail(decoded.failure), heap';
      }
      if parameter.GetValue() == null {
        return Fail(NullPointerException), heap';
      }
      parameter.GetValue().SetValue(decoded.value);
      heap' := heap[parameter.value := decoded.value];
    }
    r := Pass;
  }
}
