/** `ParameterValue`: the older revision of the value container. */
module ParameterValues {
  import opened Lang

  class ParameterValue {
    var value: Datum

    /** `new ParameterValue()` delegates to `new ParameterValue(null)`. */
    constructor ()
      ensures value == Null
    {
      value := Null;
    }

    /** `new ParameterValue(v)`. */
    constructor Holding(v: Datum)
      ensures value == v
    {
      value := v;
    }

    function GetValue(): Datum
      reads this
    {
      value
    }

    /** Replaces the content; no other object changes. */
    method SetValue(v: Datum)
      modifies this
      ensures value == v && GetValue() == v
    {
      value := v;
    }

    /** `toString()`: the `%s` rendering of the held object. */
    function ToString(): (s: string)
      reads this
      ensures value.Null? ==> s == "null"
      ensures value.Obj? ==> s == value.text
    {
      Show(value)
    }
  }
}
