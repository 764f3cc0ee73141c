/** What `DataManager.setupAll` and `DataManager.parseAll` do, as functions of
    the registry's parameters (in iteration order), the contents of their
    cells, the converters and the driver's oracles. */
module DataManagerSpec {
  import opened Wrappers
  import opened Lang
  import opened Converters
  import opened Values
  import opened ParameterKeys
  import opened Parameters
  import opened Jdbc
  import opened Statements

  /** One registered parameter: its key and its fields. */
  datatype Binding = Binding(id: KeyId, record: Record)

  /** The contents of the cells. */
  type Heap = map<Value, Datum>

  /** The calls a bulk operation left in the base statement's log, and how it ended. */
  datatype Run = Run(log: seq<Call>, outcome: Outcome)

  /** The same for `parseAll`, which also writes cells. */
  datatype ParseRun = ParseRun(log: seq<Call>, heap: Heap, outcome: Outcome)

  /** The binding's cell, if non-null, has a content in `heap`. */
  ghost predicate Known(b: Binding, heap: Heap)
  {
    b.record.value != null ==> b.record.value in heap
  }

  /** Every non-null cell of the bindings has a content in `heap`. */
  ghost predicate Covers(bs: seq<Binding>, heap: Heap)
  {
    forall i | 0 <= i < |bs| :: Known(bs[i], heap)
  }

  /** One recorded base call and whether it threw. */
  function Attempt(log: seq<Call>, c: Call, fails: (seq<Call>, Call) -> bool): Run
  {
    Run(log + [c], if fails(log, c) then Fail(SqlException) else Pass)
  }

  /** The value `setupAll` binds for an input: the cell content, through the encoder if any. */
  function Encoded(b: Binding, heap: Heap, process: Process): Result<Datum>
    requires b.record.value != null && b.record.value in heap
  {
    Apply(b.record.encoder, heap[b.record.value], process)
  }

  /** The value `parseAll` stores for an output: the driver's answer, through the decoder if any. */
  function Decoded(b: Binding, answer: Target -> Datum, process: Process): Result<Datum>
  {
    Apply(b.record.decoder, answer(TargetOf(b.id)), process)
  }

  // ---------------------------------------------------------------- setupAll

  /** The input half of `setupAll` for one parameter: nothing unless it is
      flagged input; a null cell throws; then encode and bind. */
  function SetupInput(b: Binding, heap: Heap, process: Process, fails: (seq<Call>, Call) -> bool, log: seq<Call>): Run
    requires Known(b, heap)
  {
    if !b.record.input then Run(log, Pass)
    else if b.record.value == null then Run(log, Fail(NullPointerException))
    else match Encoded(b, heap, process)
      case Err(f) => Run(log, Fail(f))
      case Ok(v) => Attempt(log, InputCall(b.id, v, b.record.sqlType), fails)
  }

  /** The output half: nothing unless it is flagged output; a null type
      throws when it is unboxed to the `int` parameter of `Statement.setOutput`. */
  function SetupOutput(b: Binding, fails: (seq<Call>, Call) -> bool, log: seq<Call>): Run
  {
    if !b.record.output then Run(log, Pass)
    else if b.record.sqlType == None then Run(log, Fail(NullPointerException))
    else Attempt(log, OutputCall(b.id, b.record.sqlType.value, b.record.structName), fails)
  }

  function SetupOne(b: Binding, heap: Heap, process: Process, fails: (seq<Call>, Call) -> bool, log: seq<Call>): Run
    requires Known(b, heap)
  {
    var r := SetupInput(b, heap, process, fails, log);
    if r.outcome.Fail? then r else SetupOutput(b, fails, r.log)
  }

  /** `setupAll`: the parameters in order, stopping at the first that throws. */
  function Setup(bs: seq<Binding>, heap: Heap, process: Process, fails: (seq<Call>, Call) -> bool, log: seq<Call>): Run
    requires Covers(bs, heap)
    decreases |bs|
  {
    if bs == [] then Run(log, Pass)
    else
      var r := SetupOne(bs[0], heap, process, fails, log);
      if r.outcome.Fail? then r else Setup(bs[1..], heap, process, fails, r.log)
  }

  /** The calls one parameter contributes to a `setupAll` that does not throw:
      the input binding first, then the output registration. */
  function PlannedOne(b: Binding, heap: Heap, process: Process): seq<Call>
    requires Known(b, heap)
  {
    (if b.record.input && b.record.value != null && Encoded(b, heap, process).Ok?
     then [InputCall(b.id, Encoded(b, heap, process).value, b.record.sqlType)] else [])
    + (if b.record.output && b.record.sqlType != None
       then [OutputCall(b.id, b.record.sqlType.value, b.record.structName)] else [])
  }

  function Planned(bs: seq<Binding>, heap: Heap, process: Process): seq<Call>
    requires Covers(bs, heap)
    decreases |bs|
  {
    if bs == [] then [] else PlannedOne(bs[0], heap, process) + Planned(bs[1..], heap, process)
  }

  /** A `setupAll` that does not throw makes exactly the planned calls, in
      iteration order; every input had a non-null cell and an encoder that
      did not throw, and every output had a non-null type. */
  lemma {:induction false} SetupPassMakesPlannedCalls(bs: seq<Binding>, heap: Heap, process: Process,
                                                      fails: (seq<Call>, Call) -> bool, log: seq<Call>)
    requires Covers(bs, heap)
    requires Setup(bs, heap, process, fails, log).outcome.Pass?
    ensures Setup(bs, heap, process, fails, log).log == log + Planned(bs, heap, process)
    ensures forall i | 0 <= i < |bs| :: bs[i].record.output ==> bs[i].record.sqlType != None
    ensures forall i | 0 <= i < |bs| :: bs[i].record.input ==>
      bs[i].record.value != null && Encoded(bs[i], heap, process).Ok?
    decreases |bs|
  {
    if bs != [] {
      var r := SetupOne(bs[0], heap, process, fails, log);
      assert Covers(bs[1..], heap);
      SetupPassMakesPlannedCalls(bs[1..], heap, process, fails, r.log);
      assert r.log == log + PlannedOne(bs[0], heap, process);
      forall i | 1 <= i < |bs| ensures bs[i] == bs[1..][i - 1] { }
    }
  }

  /** A record flagged output whose type is null makes `setupAll` throw,
      whatever the other records are: `NullPointerException` at that record,
      unless an earlier record has already thrown. */
  lemma UntypedOutputFailsSetup(bs: seq<Binding>, heap: Heap, process: Process,
                                fails: (seq<Call>, Call) -> bool, log: seq<Call>, i: nat)
    requires Covers(bs, heap)
    requires i < |bs| && bs[i].record.output && bs[i].record.sqlType == None
    ensures Setup(bs, heap, process, fails, log).outcome.Fail?
  {
    if Setup(bs, heap, process, fails, log).outcome.Pass? {
      SetupPassMakesPlannedCalls(bs, heap, process, fails, log);
    }
  }

  /** Effects are only ever added: the calls made before the failing record stay in the log. */
  lemma {:induction false} SetupExtendsLog(bs: seq<Binding>, heap: Heap, process: Process,
                                           fails: (seq<Call>, Call) -> bool, log: seq<Call>)
    requires Covers(bs, heap)
    ensures log <= Setup(bs, heap, process, fails, log).log
    decreases |bs|
  {
    if bs != [] {
      var r := SetupOne(bs[0], heap, process, fails, log);
      assert log <= r.log;
      if r.outcome.Pass? {
        assert Covers(bs[1..], heap);
        SetupExtendsLog(bs[1..], heap, process, fails, r.log);
      }
    }
  }

  /** Every `setupAll`, also one that throws, makes a prefix of the planned
      calls: it stops part-way through the plan, so no call outside the
      plan is made and the calls for the records before the failing one
      are exactly their planned ones. */
  lemma {:induction false} SetupWithinPlan(bs: seq<Binding>, heap: Heap, process: Process,
                                           fails: (seq<Call>, Call) -> bool, log: seq<Call>)
    requires Covers(bs, heap)
    ensures Setup(bs, heap, process, fails, log).log <= log + Planned(bs, heap, process)
    decreases |bs|
  {
    if bs != [] {
      var r := SetupOne(bs[0], heap, process, fails, log);
      var head := PlannedOne(bs[0], heap, process);
      var rest := Planned(bs[1..], heap, process);
      SetupOneWithinPlan(bs[0], heap, process, fails, log);
      assert log + Planned(bs, heap, process) == (log + head) + rest;
      if r.outcome.Pass? {
        assert Covers(bs[1..], heap);
        SetupWithinPlan(bs[1..], heap, process, fails, r.log);
      }
    }
  }

  /** One record's step of `setupAll` keeps the log and adds a prefix of
      its planned calls, all of them when it does not throw. */
  lemma SetupOneWithinPlan(b: Binding, heap: Heap, process: Process, fails: (seq<Call>, Call) -> bool, log: seq<Call>)
    requires Known(b, heap)
    ensures log <= SetupOne(b, heap, process, fails, log).log <= log + PlannedOne(b, heap, process)
    ensures SetupOne(b, heap, process, fails, log).outcome.Pass? ==>
      SetupOne(b, heap, process, fails, log).log == log + PlannedOne(b, heap, process)
  {
  }

  // ---------------------------------------------------------------- parseAll

  /** `parseAll` for one parameter: nothing unless it is flagged output;
      otherwise read, decode, and store into the parameter's single cell. */
  function ParseOne(b: Binding, heap: Heap, process: Process, fails: (seq<Call>, Call) -> bool,
                    answer: Target -> Datum, log: seq<Call>): ParseRun
  {
    if !b.record.output then ParseRun(log, heap, Pass)
    else
      var c := GetObject(TargetOf(b.id));
      if fails(log, c) then ParseRun(log + [c], heap, Fail(SqlException))
      else match Decoded(b, answer, process)
        case Err(f) => ParseRun(log + [c], heap, Fail(f))
        case Ok(v) =>
          if b.record.value == null then ParseRun(log + [c], heap, Fail(NullPointerException))
          else ParseRun(log + [c], heap[b.record.value := v], Pass)
  }

  /** `parseAll`: the parameters in order, stopping at the first that throws. */
  function Parse(bs: seq<Binding>, heap: Heap, process: Process, fails: (seq<Call>, Call) -> bool,
                 answer: Target -> Datum, log: seq<Call>): ParseRun
    decreases |bs|
  {
    if bs == [] then ParseRun(log, heap, Pass)
    else
      var r := ParseOne(bs[0], heap, process, fails, answer, log);
      if r.outcome.Fail? then r else Parse(bs[1..], r.heap, process, fails, answer, r.log)
  }

  /** The `getObject` calls of a `parseAll` that does not throw: one per output, in order. */
  function Reads(bs: seq<Binding>): seq<Call>
    decreases |bs|
  {
    if bs == [] then []
    else (if bs[0].record.output then [GetObject(TargetOf(bs[0].id))] else []) + Reads(bs[1..])
  }

  /** Every `parseAll`, also one that throws, keeps the log it started
      with and adds a prefix of the reads, one per output in order. */
  lemma {:induction false} ParseExtendsLog(bs: seq<Binding>, heap: Heap, process: Process,
                                           fails: (seq<Call>, Call) -> bool, answer: Target -> Datum,
                                           log: seq<Call>)
    ensures log <= Parse(bs, heap, process, fails, answer, log).log <= log + Reads(bs)
    decreases |bs|
  {
    if bs != [] {
      var r := ParseOne(bs[0], heap, process, fails, answer, log);
      var head := Reads([bs[0]]);
      ParseOneWithinReads(bs[0], heap, process, fails, answer, log);
      assert Reads(bs) == head + Reads(bs[1..]) by {
        assert [bs[0]][1..] == [];
      }
      assert log + Reads(bs) == (log + head) + Reads(bs[1..]);
      if r.outcome.Pass? {
        ParseExtendsLog(bs[1..], r.heap, process, fails, answer, r.log);
      }
    }
  }

  /** One record's step of `parseAll` keeps the log and adds at most its
      read, exactly its read when it does not throw. */
  lemma ParseOneWithinReads(b: Binding, heap: Heap, process: Process, fails: (seq<Call>, Call) -> bool,
                                answer: Target -> Datum, log: seq<Call>)
    ensures var r := ParseOne(b, heap, process, fails, answer, log);
      log <= r.log <= log + Reads([b]) && (r.outcome.Pass? ==> r.log == log + Reads([b]))
  {
    assert [b][1..] == [];
  }

  /** `parseAll` only writes cells that are some output's cell: every other
      cell, in particular the cell of an input-only parameter that no output
      shares, keeps its content; and no cell is added or dropped. */
  lemma {:induction false} ParseLeavesOtherCells(bs: seq<Binding>, heap: Heap, process: Process,
                                                 fails: (seq<Call>, Call) -> bool, answer: Target -> Datum,
                                                 log: seq<Call>, c: Value)
    requires Covers(bs, heap)
    requires c in heap
    requires forall i | 0 <= i < |bs| :: bs[i].record.output ==> bs[i].record.value != c
    ensures Parse(bs, heap, process, fails, answer, log).heap.Keys == heap.Keys
    ensures c in Parse(bs, heap, process, fails, answer, log).heap
    ensures Parse(bs, heap, process, fails, answer, log).heap[c] == heap[c]
    decreases |bs|
  {
    if bs != [] {
      var r := ParseOne(bs[0], heap, process, fails, answer, log);
      assert r.heap.Keys == heap.Keys && r.heap[c] == heap[c];
      if r.outcome.Pass? {
        forall i | 0 <= i < |bs| - 1 ensures bs[1..][i] == bs[i + 1] { }
        ParseLeavesOtherCells(bs[1..], r.heap, process, fails, answer, r.log, c);
      }
    }
  }

  /** The outputs' non-null cells are pairwise different objects. */
  ghost predicate OutputCellsDistinct(bs: seq<Binding>)
  {
    forall i, j | 0 <= i < j < |bs| :: bs[i].record.output && bs[j].record.output && bs[i].record.value != null ==>
      bs[i].record.value != bs[j].record.value
  }

  /** After a `parseAll` that does not throw, with no two outputs sharing a
      cell, every output's cell holds its decoded (or raw) answer — for an
      in-out parameter this is the cell that held the input value — and the
      log gained exactly one `getObject` per output, in order. */
  lemma {:induction false} ParseStoresDecodedAnswers(bs: seq<Binding>, heap: Heap, process: Process,
                                                     fails: (seq<Call>, Call) -> bool, answer: Target -> Datum,
                                                     log: seq<Call>)
    requires Covers(bs, heap) && OutputCellsDistinct(bs)
    requires Parse(bs, heap, process, fails, answer, log).outcome.Pass?
    ensures Parse(bs, heap, process, fails, answer, log).log == log + Reads(bs)
    ensures forall i | 0 <= i < |bs| && bs[i].record.output ::
      && bs[i].record.value != null
      && Decoded(bs[i], answer, process).Ok?
      && bs[i].record.value in Parse(bs, heap, process, fails, answer, log).heap
      && Parse(bs, heap, process, fails, answer, log).heap[bs[i].record.value] == Decoded(bs[i], answer, process).value
    decreases |bs|
  {
    if bs != [] {
      var b := bs[0];
      var r := ParseOne(b, heap, process, fails, answer, log);
      var rest := bs[1..];
      forall i | 0 <= i < |rest| ensures rest[i] == bs[i + 1] { }
      assert Covers(rest, r.heap);
      assert OutputCellsDistinct(rest);
      ParseStoresDecodedAnswers(rest, r.heap, process, fails, answer, r.log);
      if b.record.output {
        ParseLeavesOtherCells(rest, r.heap, process, fails, answer, r.log, b.record.value);
      }
    }
  }
}
