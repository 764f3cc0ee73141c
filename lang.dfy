/** The few pieces of the Java runtime the model needs: 32-bit `int`,
    opaque object references, `%s`/`%d` rendering and `String.hashCode`. */
module Lang {
  import opened Wrappers

  const TWO_TO_THE_32: int := 0x1_0000_0000

  /** Java's `int`. */
  type Int32 = x: int | -0x8000_0000 <= x < 0x8000_0000

  /** Two's-complement wrap-around of an exact integer result into `int`. */
  function Wrap32(x: int): (r: Int32)
    ensures (x - r) % TWO_TO_THE_32 == 0
    ensures -0x8000_0000 <= x < 0x8000_0000 ==> r == x
  {
    (x + 0x8000_0000) % TWO_TO_THE_32 - 0x8000_0000
  }

  /** Wrapping depends only on the residue modulo 2^32. */
  lemma WrapCongruent(x: int, y: int, k: int)
    requires x == y + k * TWO_TO_THE_32
    ensures Wrap32(x) == Wrap32(y)
  {
    var a := y + 0x8000_0000;
    assert x + 0x8000_0000 == a + k * TWO_TO_THE_32;
    var q, m := a / TWO_TO_THE_32, a % TWO_TO_THE_32;
    assert a + k * TWO_TO_THE_32 == (q + k) * TWO_TO_THE_32 + m;
  }

  /** Wrapping an intermediate result of `a * h + b` changes nothing:
      stepwise `int` arithmetic agrees with one final wrap. */
  lemma {:induction false} WrapStep(a: int, h: int, b: int)
    ensures Wrap32(a * Wrap32(h) + b) == Wrap32(a * h + b)
  {
    var k := (h - Wrap32(h)) / TWO_TO_THE_32;
    assert h == Wrap32(h) + k * TWO_TO_THE_32;
    assert a * h + b == a * Wrap32(h) + b + (a * k) * TWO_TO_THE_32;
    WrapCongruent(a * h + b, a * Wrap32(h) + b, a * k);
  }

  /** A Java object reference held in a cell or passed to the driver: null,
      or an object whose `toString()` is `text`.  Nothing else about the
      object is visible to the modelled code. */
  datatype Datum = Null | Obj(text: string)

  /** `String.format("%s", d)`. */
  function Show(d: Datum): string
  {
    match d
    case Null => "null"
    case Obj(text) => text
  }

  /** `String.format("%s", s)` for a `String` that may be null. */
  function ShowString(s: Option<string>): string
  {
    match s
    case None => "null"
    case Some(text) => text
  }

  /** `String.format("%d", i)` for an `Integer` that may be null. */
  function ShowInt(i: Option<Int32>): string
  {
    match i
    case None => "null"
    case Some(n) => Decimal(n)
  }

  /** Java's decimal rendering of an integer: a minus sign for negative
      values, then the digits of the magnitude. */
  function Decimal(n: int): string
  {
    if n < 0 then "-" + Digits(-n) else Digits(n)
  }

  /** The decimal digits of `n`, most significant first, without leading zeros. */
  function Digits(n: nat): string
  {
    if n < 10 then [DigitChar(n)] else Digits(n / 10) + [DigitChar(n % 10)]
  }

  function DigitChar(d: nat): char
    requires d < 10
  {
    ('0' as int + d) as char
  }

  predicate IsDigit(c: char)
  {
    '0' <= c <= '9'
  }

  /** Reads a string of decimal digits back as a number. */
  function DigitsValue(s: string): int
  {
    if s == [] then 0 else 10 * DigitsValue(s[..|s| - 1]) + (s[|s| - 1] as int - '0' as int)
  }

  /** `Digits` renders every natural number as a non-empty string of decimal
      digits without a leading zero, from which the number reads back. */
  lemma {:induction false} DigitsRoundTrip(n: nat)
    ensures |Digits(n)| >= 1
    ensures forall j | 0 <= j < |Digits(n)| :: IsDigit(Digits(n)[j])
    ensures n >= 10 ==> Digits(n)[0] != '0'
    ensures DigitsValue(Digits(n)) == n
    decreases n
  {
    if n >= 10 {
      DigitsRoundTrip(n / 10);
      var s := Digits(n);
      assert s[..|s| - 1] == Digits(n / 10);
      assert s[0] == Digits(n / 10)[0];
    }
  }

  /** `Decimal` writes a minus sign exactly for negative numbers, then the
      digits of the magnitude. */
  lemma DecimalShape(n: int)
    ensures |Decimal(n)| >= 1
    ensures Decimal(n)[0] == '-' <==> n < 0
    ensures n < 0 ==> Decimal(n)[1..] == Digits(-n)
    ensures n >= 0 ==> Decimal(n) == Digits(n)
  {
    if n < 0 {
      DigitsRoundTrip(-n);
      assert ("-" + Digits(-n))[1..] == Digits(-n);
    } else {
      DigitsRoundTrip(n);
      assert IsDigit(Digits(n)[0]);
    }
  }

  /** The UTF-16 code units of one character, as Java's `String` stores them. */
  function Utf16Units(c: char): (u: seq<int>)
    ensures 1 <= |u| <= 2
    ensures forall j :: 0 <= j < |u| ==> 0 <= u[j] < 0x1_0000
    ensures |u| == 1 <==> (c as int) < 0x1_0000
  {
    var code := c as int;
    if code < 0x1_0000 then [code]
    else [0xD800 + (code - 0x1_0000) / 0x400, 0xDC00 + (code - 0x1_0000) % 0x400]
  }

  /** The UTF-16 code units of a string. */
  function Utf16(s: string): (u: seq<int>)
    ensures |u| >= |s|
  {
    if s == [] then [] else Utf16(s[..|s| - 1]) + Utf16Units(s[|s| - 1])
  }

  /** `String.hashCode()`: h = 31 * h + unit over the code units, in `int`. */
  function StringHash(s: string): Int32
  {
    UnitsHash(Utf16(s))
  }

  function UnitsHash(units: seq<int>): Int32
  {
    if units == [] then 0
    else Wrap32(31 * UnitsHash(units[..|units| - 1]) + units[|units| - 1])
  }
}
