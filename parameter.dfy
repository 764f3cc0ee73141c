/** `Parameter`: the flag-based record of the `DataManager` revision. */
module Parameters {
  import opened Wrappers
  import opened Lang
  import opened Converters
  import opened Values

  /** The seven fields of a parameter at one moment; `value` is the cell
      reference, not its content. */
  datatype Record = Record(
    decoder: Option<Converter>,
    encoder: Option<Converter>,
    input: bool,
    output: bool,
    sqlType: Option<Int32>,
    structName: Option<string>,
    value: Value?)

  /** The fields after `merge(another)`: decoder, encoder, type and struct
      name are taken from `another`, the flags are ORed, the cell is kept. */
  function Merged(mine: Record, another: Record): Record
  {
    Record(another.decoder, another.encoder, mine.input || another.input, mine.output || another.output,
           another.sqlType, another.structName, mine.value)
  }

  /** `merge(another)` throws `NullPointerException` exactly when `another`
      is an input and one of the two cells is null. */
  predicate MergeThrows(mine: Record, another: Record)
  {
    another.input && (another.value == null || mine.value == null)
  }

  /** Merging never clears a flag nor replaces the cell, merging the same
      record twice changes nothing more, and an input merged into an output
      (or the reverse) gives an in-out parameter. */
  lemma MergedProperties(mine: Record, another: Record)
    ensures Merged(mine, another).value == mine.value
    ensures mine.input ==> Merged(mine, another).input
    ensures mine.output ==> Merged(mine, another).output
    ensures Merged(Merged(mine, another), another) == Merged(mine, another)
    ensures mine.output && another.input ==> Merged(mine, another).input && Merged(mine, another).output
    ensures Merged(mine, another).input <==> mine.input || another.input
  {
  }

  /** The record of a freshly constructed parameter. */
  const Blank: Record := Record(None, None, false, false, None, None, null)

  class Parameter {
    var decoder: Option<Converter>
    var encoder: Option<Converter>
    var input: bool
    var output: bool
    var sqlType: Option<Int32>
    var structName: Option<string>
    var value: Value?

    function Fields(): Record
      reads this
    {
      Record(decoder, encoder, input, output, sqlType, structName, value)
    }

    /** `new Parameter()`: both flags false, every reference null. */
    constructor ()
      ensures Fields() == Blank
    {
      decoder, encoder := None, None;
      input, output := false, false;
      sqlType, structName := None, None;
      value := null;
    }

    function GetDecoder(): Option<Converter> reads this { decoder }
    function GetEncoder(): Option<Converter> reads this { encoder }
    predicate IsInput() reads this { input }
    predicate IsOutput() reads this { output }
    function GetSqlType(): Option<Int32> reads this { sqlType }
    function GetStructName(): Option<string> reads this { structName }
    function GetValue(): Value? reads this { value }

    // Each setter changes its own field and no other.

    method SetDecoder(d: Option<Converter>)
      modifies this
      ensures Fields() == old(Fields()).(decoder := d) && GetDecoder() == d
    {
      decoder := d;
    }

    method SetEncoder(e: Option<Converter>)
      modifies this
      ensures Fields() == old(Fields()).(encoder := e) && GetEncoder() == e
    {
      encoder := e;
    }

    method SetInput(b: bool)
      modifies this
      ensures Fields() == old(Fields()).(input := b) && IsInput() == b
    {
      input := b;
    }

    method SetOutput(b: bool)
      modifies this
      ensures Fields() == old(Fields()).(output := b) && IsOutput() == b
    {
      output := b;
    }

    method SetSqlType(t: Option<Int32>)
      modifies this
      ensures Fields() == old(Fields()).(sqlType := t) && GetSqlType() == t
    {
      sqlType := t;
    }

    method SetStructName(s: Option<string>)
      modifies this
      ensures Fields() == old(Fields()).(structName := s) && GetStructName() == s
    {
      structName := s;
    }

    method SetValue(v: Value?)
      modifies this
      ensures Fields() == old(Fields()).(value := v) && GetValue() == v
    {
      value := v;
    }

    /** `merge(another)`: overwrites decoder, encoder, type and struct name
        with those of `another` (nulls included), ORs the two flags, and
        keeps this parameter's own cell; when `another` is an input its cell
        content is copied into that cell.  The six field assignments happen
        before the copy, so they stay in effect when the copy throws because
        either cell is null.  `another` and its cell are not changed
        (unless they are this parameter or its cell). */
    method Merge(another: Parameter) returns (r: Outcome)
      modifies this, value
      ensures Fields() == Merged(old(Fields()), old(another.Fields()))
      ensures r == if MergeThrows(old(Fields()), old(another.Fields())) then Fail(NullPointerException) else Pass
      ensures r.Pass? && old(another.input) ==> value.value == old(another.value.value)
      ensures value != null && (!old(another.input) || r.Fail?) ==> unchanged(value)
      ensures another != this ==> unchanged(another)
    {
      decoder := another.decoder;
      encoder := another.encoder;
      input := input || another.input;
      output := output || another.output;
      sqlType := another.sqlType;
      structName := another.structName;
      if another.input {
        if another.value == null || value == null {
          return Fail(NullPointerException);
        }
        var v := another.value.GetValue();
        value.SetValue(v);
      }
      return Pass;
    }

    /** `toString()`: `"<value> (<sqlType>/<structName>)"` with `%s`, `%d`
        and `%s`, each null rendered as `"null"`. */
    function ToString(): string
      reads this, value
    {
      CellText(value) + " (" + ShowInt(sqlType) + "/" + ShowString(structName) + ")"
    }
  }

  /** A parameter with no cell, type or struct name renders as
      `"null (null/null)"`. */
  lemma BlankToString(p: Parameter)
    requires p.value == null && p.sqlType == None && p.structName == None
    ensures p.ToString() == "null (null/null)"
  {
  }

  /** `toString` for every combination of null and non-null cell, type and
      struct name: `%s` of a null cell and of a cell holding null are both
      `"null"`, `%d` of a null type is `"null"` and of any `int` its decimal
      digits, which are never `"null"`, so the middle part tells whether the
      type is set. */
  lemma ToStringShapes(p: Parameter)
    ensures var cell := if p.value == null || p.value.value.Null? then "null" else p.value.value.text;
            var sqlType := if p.sqlType == None then "null" else Decimal(p.sqlType.value);
            var struct := if p.structName == None then "null" else p.structName.value;
            p.ToString() == cell + " (" + sqlType + "/" + struct + ")"
    ensures ShowInt(p.sqlType) == "null" <==> p.sqlType == None
  {
    if p.sqlType != None {
      var n := p.sqlType.value;
      DecimalShape(n);
      if n >= 0 {
        DigitsRoundTrip(n);
        assert IsDigit(Decimal(n)[0]);
      }
      assert Decimal(n)[0] != "null"[0];
    }
  }

  /** A `VARCHAR` (12) parameter of the struct `ADDRESS_T` whose cell holds
      an object printed as `"x"` renders as `"x (12/ADDRESS_T)"`. */
  lemma ToStringExample(p: Parameter)
    requires p.value != null && p.value.value == Obj("x") && p.sqlType == Some(12) && p.structName == Some("ADDRESS_T")
    ensures p.ToString() == "x (12/ADDRESS_T)"
  {
    assert Decimal(12) == Digits(1) + [DigitChar(2)];
  }

  function CellText(c: Value?): string
    reads c
  {
    if c == null then "null" else c.ToString()
  }
}
