/** What `Manager.setupAll` and `Manager.parseAll` do, as functions of the
    registry's records (in iteration order), the contents of the cells, the
    converters and the statement's oracles. */
module ManagerSpec {
  import opened Wrappers
  import opened Lang
  import opened Converters
  import opened Values

  /** The six fields of one of `Manager`'s records: optional input and
      output cells, SQL type, struct name, encoder and decoder. */
  datatype Record = Record(input: Value?, output: Value?, sqlType: Option<Int32>, struct: Option<string>,
                           encoder: Option<Converter>, decoder: Option<Converter>)

  /** One call `Manager` makes on its statement. */
  datatype Call<K> =
    | BindInput(key: K, x: Datum, sqlType: Option<Int32>)                    // statement.input(key, value, type)
    | RegisterOutput(key: K, sqlType: Option<Int32>, struct: Option<string>)  // statement.output(key, sqlType, structName)
    | ReadOutput(key: K)                                                      // statement.read(key)

  /** One registered record: its key and its fields. */
  datatype Binding<K> = Binding(key: K, record: Record)

  /** The contents of the cells. */
  type Heap = map<Value, Datum>

  /** The calls a bulk operation left in the statement's log, and how it ended. */
  datatype Run<K> = Run(log: seq<Call<K>>, outcome: Outcome)

  /** The same for `parseAll`, which also writes cells. */
  datatype ParseRun<K> = ParseRun(log: seq<Call<K>>, heap: Heap, outcome: Outcome)

  /** The binding's cells, where non-null, have a content in `heap`. */
  ghost predicate Known<K>(b: Binding<K>, heap: Heap)
  {
    && (b.record.input != null ==> b.record.input in heap)
    && (b.record.output != null ==> b.record.output in heap)
  }

  /** Every non-null cell of the bindings has a content in `heap`. */
  ghost predicate Covers<K>(bs: seq<Binding<K>>, heap: Heap)
  {
    forall i | 0 <= i < |bs| :: Known(bs[i], heap)
  }

  /** One recorded statement call and whether it threw. */
  function Attempt<K>(log: seq<Call<K>>, c: Call<K>, fails: (seq<Call<K>>, Call<K>) -> bool): Run<K>
  {
    Run(log + [c], if fails(log, c) then Fail(SqlException) else Pass)
  }

  /** The value `setupAll` binds for an input: the input cell's content,
      through the encoder if any. */
  function Encoded<K>(b: Binding<K>, heap: Heap, process: Process): Result<Datum>
    requires b.record.input != null && b.record.input in heap
  {
    Apply(b.record.encoder, heap[b.record.input], process)
  }

  /** The value `parseAll` stores for an output: the statement's answer,
      through the decoder if any. */
  function Decoded<K>(b: Binding<K>, answer: K -> Datum, process: Process): Result<Datum>
  {
    Apply(b.record.decoder, answer(b.key), process)
  }

  // ---------------------------------------------------------------- setupAll

  /** The input half of `setupAll` for one record: nothing without an input
      cell; otherwise encode and bind with the record's type. */
  function SetupInput<K>(b: Binding<K>, heap: Heap, process: Process, fails: (seq<Call<K>>, Call<K>) -> bool,
                         log: seq<Call<K>>): Run<K>
    requires Known(b, heap)
  {
    if b.record.input == null then Run(log, Pass)
    else match Encoded(b, heap, process)
      case Err(f) => Run(log, Fail(f))
      case Ok(v) => Attempt(log, BindInput(b.key, v, b.record.sqlType), fails)
  }

  /** The output half: nothing without an output cell; otherwise register
      the output with the record's type and struct name. */
  function SetupOutput<K>(b: Binding<K>, fails: (seq<Call<K>>, Call<K>) -> bool, log: seq<Call<K>>): Run<K>
  {
    if b.record.output == null then Run(log, Pass)
    else Attempt(log, RegisterOutput(b.key, b.record.sqlType, b.record.struct), fails)
  }

  function SetupOne<K>(b: Binding<K>, heap: Heap, process: Process, fails: (seq<Call<K>>, Call<K>) -> bool,
                       log: seq<Call<K>>): Run<K>
    requires Known(b, heap)
  {
    var r := SetupInput(b, heap, process, fails, log);
    if r.outcome.Fail? then r else SetupOutput(b, fails, r.log)
  }

  /** `setupAll`: the records in order, stopping at the first that throws. */
  function Setup<K>(bs: seq<Binding<K>>, heap: Heap, process: Process, fails: (seq<Call<K>>, Call<K>) -> bool,
                    log: seq<Call<K>>): Run<K>
    requires Covers(bs, heap)
    decreases |bs|
  {
    if bs == [] then Run(log, Pass)
    else
      var r := SetupOne(bs[0], heap, process, fails, log);
      if r.outcome.Fail? then r else Setup(bs[1..], heap, process, fails, r.log)
  }

  /** The calls one record contributes to a `setupAll` that does not throw:
      the input binding first, then the output registration. */
  function PlannedOne<K>(b: Binding<K>, heap: Heap, process: Process): seq<Call<K>>
    requires Known(b, heap)
  {
    (if b.record.input != null && Encoded(b, heap, process).Ok?
     then [BindInput(b.key, Encoded(b, heap, process).value, b.record.sqlType)] else [])
    + (if b.record.output != null then [RegisterOutput(b.key, b.record.sqlType, b.record.struct)] else [])
  }

  function Planned<K>(bs: seq<Binding<K>>, heap: Heap, process: Process): seq<Call<K>>
    requires Covers(bs, heap)
    decreases |bs|
  {
    if bs == [] then [] else PlannedOne(bs[0], heap, process) + Planned(bs[1..], heap, process)
  }

  /** A `setupAll` that does not throw makes exactly the planned calls, in
      iteration order, and every input's encoder succeeded. */
  lemma {:induction false} SetupPassMakesPlannedCalls<K>(bs: seq<Binding<K>>, heap: Heap, process: Process,
                                                         fails: (seq<Call<K>>, Call<K>) -> bool, log: seq<Call<K>>)
    requires Covers(bs, heap)
    requires Setup(bs, heap, process, fails, log).outcome.Pass?
    ensures Setup(bs, heap, process, fails, log).log == log + Planned(bs, heap, process)
    ensures forall i | 0 <= i < |bs| :: bs[i].record.input != null ==> Encoded(bs[i], heap, process).Ok?
    decreases |bs|
  {
    if bs != [] {
      var r := SetupOne(bs[0], heap, process, fails, log);
      assert Covers(bs[1..], heap);
      SetupPassMakesPlannedCalls(bs[1..], heap, process, fails, r.log);
      assert r.log == log + PlannedOne(bs[0], heap, process);
      forall i | 1 <= i < |bs| ensures bs[i] == bs[1..][i - 1] { }
    }
  }

  /** Effects are only ever added: the calls made before the failing record stay in the log. */
  lemma {:induction false} SetupExtendsLog<K>(bs: seq<Binding<K>>, heap: Heap, process: Process,
                                           fails: (seq<Call<K>>, Call<K>) -> bool, log: seq<Call<K>>)
    requires Covers(bs, heap)
    ensures log <= Setup(bs, heap, process, fails, log).log
    decreases |bs|
  {
    if bs != [] {
      var r := SetupOne(bs[0], heap, process, fails, log);
      assert log <= r.log;
      if r.outcome.Pass? {
        assert Covers(bs[1..], heap);
        SetupExtendsLog(bs[1..], heap, process, fails, r.log);
      }
    }
  }

  /** Every `setupAll`, also one that throws, makes a prefix of the planned
      calls: it stops part-way through the plan, so no call outside the
      plan is made and the calls for the records before the failing one
      are exactly their planned ones. */
  lemma {:induction false} SetupWithinPlan<K>(bs: seq<Binding<K>>, heap: Heap, process: Process,
                                           fails: (seq<Call<K>>, Call<K>) -> bool, log: seq<Call<K>>)
    requires Covers(bs, heap)
    ensures Setup(bs, heap, process, fails, log).log <= log + Planned(bs, heap, process)
    decreases |bs|
  {
    if bs != [] {
      var r := SetupOne(bs[0], heap, process, fails, log);
      var head := PlannedOne(bs[0], heap, process);
      var rest := Planned(bs[1..], heap, process);
      SetupOneWithinPlan(bs[0], heap, process, fails, log);
      assert log + Planned(bs, heap, process) == (log + head) + rest;
      if r.outcome.Pass? {
        assert Covers(bs[1..], heap);
        SetupWithinPlan(bs[1..], heap, process, fails, r.log);
      }
    }
  }

  /** One record's step of `setupAll` keeps the log and adds a prefix of
      its planned calls, all of them when it does not throw. */
  lemma SetupOneWithinPlan<K>(b: Binding<K>, heap: Heap, process: Process, fails: (seq<Call<K>>, Call<K>) -> bool, log: seq<Call<K>>)
    requires Known(b, heap)
    ensures log <= SetupOne(b, heap, process, fails, log).log <= log + PlannedOne(b, heap, process)
    ensures SetupOne(b, heap, process, fails, log).outcome.Pass? ==>
      SetupOne(b, heap, process, fails, log).log == log + PlannedOne(b, heap, process)
  {
  }

  /** Every planned call of a `setupAll` comes from a record with an input
      or an output cell and names that record's key: a record whose cells
      are both null has no planned call. */
  lemma {:induction false} PlannedCallsHaveCells<K>(bs: seq<Binding<K>>, heap: Heap, process: Process, j: nat)
    requires Covers(bs, heap) && j < |Planned(bs, heap, process)|
    ensures exists i | 0 <= i < |bs| ::
      && Planned(bs, heap, process)[j].key == bs[i].key
      && (bs[i].record.input != null || bs[i].record.output != null)
    decreases |bs|
  {
    var head := PlannedOne(bs[0], heap, process);
    assert Covers(bs[1..], heap);
    if j < |head| {
      assert Planned(bs, heap, process)[j] == head[j];
      assert bs[0].record.input != null || bs[0].record.output != null;
    } else {
      PlannedCallsHaveCells(bs[1..], heap, process, j - |head|);
      var i :| 0 <= i < |bs[1..]| && Planned(bs[1..], heap, process)[j - |head|].key == bs[1..][i].key
        && (bs[1..][i].record.input != null || bs[1..][i].record.output != null);
      assert bs[1..][i] == bs[i + 1];
    }
  }

  /** The same for the calls a `setupAll` actually made, also one that
      throws: each call after the starting log names the key of a record
      with an input or an output cell. */
  lemma SetupCallsHaveCells<K>(bs: seq<Binding<K>>, heap: Heap, process: Process,
                               fails: (seq<Call<K>>, Call<K>) -> bool, log: seq<Call<K>>, j: nat)
    requires Covers(bs, heap)
    requires |log| <= j < |Setup(bs, heap, process, fails, log).log|
    ensures exists i | 0 <= i < |bs| ::
      && Setup(bs, heap, process, fails, log).log[j].key == bs[i].key
      && (bs[i].record.input != null || bs[i].record.output != null)
  {
    SetupWithinPlan(bs, heap, process, fails, log);
    assert Setup(bs, heap, process, fails, log).log[j] == Planned(bs, heap, process)[j - |log|];
    PlannedCallsHaveCells(bs, heap, process, j - |log|);
  }

  // ---------------------------------------------------------------- parseAll

  /** `parseAll` for one record: nothing without an output cell; otherwise
      read, decode, and store into the output cell. */
  function ParseOne<K>(b: Binding<K>, heap: Heap, process: Process, fails: (seq<Call<K>>, Call<K>) -> bool,
                       answer: K -> Datum, log: seq<Call<K>>): ParseRun<K>
  {
    if b.record.output == null then ParseRun(log, heap, Pass)
    else
      var c := ReadOutput(b.key);
      if fails(log, c) then ParseRun(log + [c], heap, Fail(SqlException))
      else match Decoded(b, answer, process)
        case Err(f) => ParseRun(log + [c], heap, Fail(f))
        case Ok(v) => ParseRun(log + [c], heap[b.record.output := v], Pass)
  }

  /** `parseAll`: the records in order, stopping at the first that throws. */
  function Parse<K>(bs: seq<Binding<K>>, heap: Heap, process: Process, fails: (seq<Call<K>>, Call<K>) -> bool,
                    answer: K -> Datum, log: seq<Call<K>>): ParseRun<K>
    decreases |bs|
  {
    if bs == [] then ParseRun(log, heap, Pass)
    else
      var r := ParseOne(bs[0], heap, process, fails, answer, log);
      if r.outcome.Fail? then r else Parse(bs[1..], r.heap, process, fails, answer, r.log)
  }

  /** The `read` calls of a `parseAll` that does not throw: one per output, in order. */
  function Reads<K>(bs: seq<Binding<K>>): seq<Call<K>>
    decreases |bs|
  {
    if bs == [] then []
    else (if bs[0].record.output != null then [ReadOutput(bs[0].key)] else []) + Reads(bs[1..])
  }

  /** Every `parseAll`, also one that throws, keeps the log it started
      with and adds a prefix of the reads, one per output in order. */
  lemma {:induction false} ParseExtendsLog<K>(bs: seq<Binding<K>>, heap: Heap, process: Process,
                                           fails: (seq<Call<K>>, Call<K>) -> bool, answer: K -> Datum,
                                           log: seq<Call<K>>)
    ensures log <= Parse(bs, heap, process, fails, answer, log).log <= log + Reads(bs)
    decreases |bs|
  {
    if bs != [] {
      var r := ParseOne(bs[0], heap, process, fails, answer, log);
      var head := Reads([bs[0]]);
      ParseOneWithinReads(bs[0], heap, process, fails, answer, log);
      assert Reads(bs) == head + Reads(bs[1..]) by {
        assert [bs[0]][1..] == [];
      }
      assert log + Reads(bs) == (log + head) + Reads(bs[1..]);
      if r.outcome.Pass? {
        ParseExtendsLog(bs[1..], r.heap, process, fails, answer, r.log);
      }
    }
  }

  /** One record's step of `parseAll` keeps the log and adds at most its
      read, exactly its read when it does not throw. */
  lemma ParseOneWithinReads<K>(b: Binding<K>, heap: Heap, process: Process, fails: (seq<Call<K>>, Call<K>) -> bool,
                                answer: K -> Datum, log: seq<Call<K>>)
    ensures var r := ParseOne(b, heap, process, fails, answer, log);
      log <= r.log <= log + Reads([b]) && (r.outcome.Pass? ==> r.log == log + Reads([b]))
  {
    assert [b][1..] == [];
  }

  /** `parseAll` only writes output cells: every other cell, in particular
      an input cell that is no record's output cell, keeps its content, and
      no cell is added or dropped. */
  lemma {:induction false} ParseLeavesOtherCells<K>(bs: seq<Binding<K>>, heap: Heap, process: Process,
                                                    fails: (seq<Call<K>>, Call<K>) -> bool, answer: K -> Datum,
                                                    log: seq<Call<K>>, c: Value)
    requires Covers(bs, heap)
    requires c in heap
    requires forall i | 0 <= i < |bs| :: bs[i].record.output != c
    ensures Parse(bs, heap, process, fails, answer, log).heap.Keys == heap.Keys
    ensures c in Parse(bs, heap, process, fails, answer, log).heap
    ensures Parse(bs, heap, process, fails, answer, log).heap[c] == heap[c]
    decreases |bs|
  {
    if bs != [] {
      var r := ParseOne(bs[0], heap, process, fails, answer, log);
      assert r.heap.Keys == heap.Keys && r.heap[c] == heap[c];
      if r.outcome.Pass? {
        forall i | 0 <= i < |bs| - 1 ensures bs[1..][i] == bs[i + 1] { }
        ParseLeavesOtherCells(bs[1..], r.heap, process, fails, answer, r.log, c);
      }
    }
  }

  /** The non-null output cells are pairwise different objects. */
  ghost predicate OutputCellsDistinct<K>(bs: seq<Binding<K>>)
  {
    forall i, j | 0 <= i < j < |bs| :: bs[i].record.output != null ==> bs[i].record.output != bs[j].record.output
  }

  /** After a `parseAll` that does not throw, with no two records sharing an
      output cell, every output cell holds its decoded (or raw) answer, and
      the log gained exactly one `read` per output, in order. */
  lemma {:induction false} ParseStoresDecodedAnswers<K>(bs: seq<Binding<K>>, heap: Heap, process: Process,
                                                        fails: (seq<Call<K>>, Call<K>) -> bool, answer: K -> Datum,
                                                        log: seq<Call<K>>)
    requires Covers(bs, heap) && OutputCellsDistinct(bs)
    requires Parse(bs, heap, process, fails, answer, log).outcome.Pass?
    ensures Parse(bs, heap, process, fails, answer, log).log == log + Reads(bs)
    ensures forall i | 0 <= i < |bs| && bs[i].record.output != null ::
      && Decoded(bs[i], answer, process).Ok?
      && bs[i].record.output in Parse(bs, heap, process, fails, answer, log).heap
      && Parse(bs, heap, process, fails, answer, log).heap[bs[i].record.output] == Decoded(bs[i], answer, process).value
    decreases |bs|
  {
    if bs != [] {
      var b := bs[0];
      var r := ParseOne(b, heap, process, fails, answer, log);
      var rest := bs[1..];
      forall i | 0 <= i < |rest| ensures rest[i] == bs[i + 1] { }
      assert Covers(rest, r.heap);
      assert OutputCellsDistinct(rest);
      ParseStoresDecodedAnswers(rest, r.heap, process, fails, answer, r.log);
      if b.record.output != null {
        ParseLeavesOtherCells(rest, r.heap, process, fails, answer, r.log, b.record.output);
      }
    }
  }
}
