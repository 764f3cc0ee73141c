/** `ParameterKey`: an index-based or name-based key of a routine parameter. */
module ParameterKeys {
  import opened Wrappers
  import opened Lang

  /** The two final fields `equals` and `hashCode` look at. */
  datatype KeyId = KeyId(index: Option<Int32>, name: Option<string>)

  class ParameterKey {
    const index: Option<Int32>
    const name: Option<string>
    /** Whether `toString` has filled its cache. */
    var textCached: bool

    /** `new ParameterKey(int)`: no range check is made on the index. */
    constructor AtIndex(i: Int32)
      ensures index == Some(i) && name == None
      ensures IsIndexBased() && !IsNameBased() && GetIndex() == Some(i)
      ensures !textCached
    {
      index := Some(i);
      name := None;
      textCached := false;
    }

    /** `new ParameterKey(String)`: a null name is accepted and then the key
        is neither index-based nor name-based. */
    constructor Named(n: Option<string>)
      ensures index == None && name == n
      ensures !IsIndexBased() && IsNameBased() == n.Some? && GetName() == n
      ensures !textCached
    {
      index := None;
      name := n;
      textCached := false;
    }

    function GetIndex(): Option<Int32> { index }

    function GetName(): Option<string> { name }

    predicate IsIndexBased() { index != None }

    predicate IsNameBased() { name != None }

    /** The key's value under `equals`. */
    function Id(): KeyId { KeyId(index, name) }

    /** `equals(Object)`.  The reference test `_index != index` on the boxed
        integers is taken as a value test; the disjunct after it makes the
        outcome the same either way. */
    predicate Equals(other: object?)
    {
      if other == null then false
      else if !(other is ParameterKey) then false
      else
        var o := other as ParameterKey;
        if index != o.index && (index == None || index != o.index) then false
        else if (if name == None then o.name != None else name != o.name) then false
        else true
    }

    /** `hashCode()`, each step in `int` arithmetic. */
    function HashCode(): Int32
    {
      var hash := 3;
      var hash' := Wrap32(71 * hash + FieldHash(index));
      Wrap32(71 * hash' + NameHash(name))
    }

    /** What `toString()` renders (and caches). */
    function Text(): string
    {
      if name == None then ShowInt(index) + " (index-based)"
      else name.value + " (name-based)"
    }

    /** `toString()`: computes the text on the first call only and caches it. */
    method ToString() returns (s: string)
      modifies this
      ensures s == Text() && textCached
      ensures old(textCached) ==> unchanged(this)
    {
      if !textCached {
        textCached := true;
      }
      s := Text();
    }
  }

  /** `Integer.hashCode()` of a possibly null field; null contributes 0. */
  function FieldHash(i: Option<Int32>): int
  {
    match i
    case None => 0
    case Some(v) => v
  }

  /** `String.hashCode()` of a possibly null field; null contributes 0. */
  function NameHash(s: Option<string>): int
  {
    match s
    case None => 0
    case Some(text) => StringHash(text)
  }

  /** Two keys are equal exactly when both their index and their name
      fields agree, null agreeing with null. */
  lemma EqualsIffSameFields(a: ParameterKey, b: ParameterKey)
    ensures a.Equals(b) <==> a.index == b.index && a.name == b.name
    ensures a.Equals(b) <==> a.Id() == b.Id()
  {
  }

  lemma EqualsIsReflexiveAndSymmetric(a: ParameterKey, b: ParameterKey)
    ensures a.Equals(a)
    ensures a.Equals(b) <==> b.Equals(a)
  {
  }

  /** No key equals null, and no key equals an object of another class. */
  lemma EqualsRejectsOthers(a: ParameterKey, o: object?)
    requires o == null || !(o is ParameterKey)
    ensures !a.Equals(o)
  {
  }

  /** An index-based key never equals a key built from a name. */
  lemma IndexKeyNeverEqualsNameKey(a: ParameterKey, b: ParameterKey)
    requires a.IsIndexBased() && b.index == None
    ensures !a.Equals(b) && !b.Equals(a)
  {
  }

  /** The stepwise hash equals the one-line formula
      `71 * (71 * 3 + h(index)) + h(name)` wrapped once into `int`. */
  lemma HashCodeFormula(k: ParameterKey)
    ensures k.HashCode() == Wrap32(71 * (71 * 3 + FieldHash(k.index)) + NameHash(k.name))
  {
    var h := 71 * 3 + FieldHash(k.index);
    WrapStep(71, h, NameHash(k.name));
  }

  /** Equal keys have equal hashes, as `HashMap` requires. */
  lemma EqualKeysHaveEqualHashes(a: ParameterKey, b: ParameterKey)
    requires a.Equals(b)
    ensures a.HashCode() == b.HashCode()
  {
  }

  /** Java's `toString` shapes: `"<index> (index-based)"` when there is no
      name (so `"null (index-based)"` for a null name) and
      `"<name> (name-based)"` otherwise. */
  lemma ToStringShapes(k: ParameterKey)
    ensures k.index != None && k.name == None ==>
      k.Text() == Decimal(k.index.value) + " (index-based)"
    ensures k.index == None && k.name == None ==> k.Text() == "null (index-based)"
    ensures k.name != None ==> k.Text() == k.name.value + " (name-based)"
  {
  }
}
