/** `Value`: the single-slot container handed to callers for output values. */
module Values {
  import opened Lang

  /** A mutable cell; two cells are different objects even when their
      contents are equal, and callers rely on that identity. */
  class Value {
    var value: Datum

    /** `new Value()`: the slot starts out null. */
    constructor ()
      ensures value == Null
    {
      value := Null;
    }

    /** `new Value(v)`. */
    constructor Holding(v: Datum)
      ensures value == v
    {
      value := v;
    }

    function GetValue(): Datum
      reads this
    {
      value
    }

    /** Replaces the content; no other object changes. */
    method SetValue(v: Datum)
      modifies this
      ensures value == v && GetValue() == v
    {
      value := v;
    }

    /** `toString()`: the `%s` rendering of the held object. */
    function ToString(): (s: string)
      reads this
      ensures value.Null? ==> s == "null"
      ensures value.Obj? ==> s == value.text
    {
      Show(value)
    }
  }

  /** `heap` holds exactly the contents of `cells`. */
  ghost predicate Mirrors(cells: set<Value>, heap: map<Value, Datum>)
    reads cells
  {
    heap.Keys == cells && forall c | c in cells :: c.value == heap[c]
  }
}
