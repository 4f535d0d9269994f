/**
 * The few pieces of Java semantics that the modelled classes rely on:
 * references that may be null, 32-bit `int` arithmetic and the lookup
 * rule of `java.util.Properties`.
 */
module JavaLang {

  /** A Java reference that may be `null` (None). */
  datatype Option<+T> = None | Some(value: T)

  const TwoTo31: int := 0x8000_0000
  const TwoTo32: int := 0x1_0000_0000

  /** The values of a Java `int`. */
  type Int32 = x: int | -0x8000_0000 <= x < 0x8000_0000

  /**
   * Two's complement wrap-around: the Java `int` that an exact integer
   * result is truncated to.
   */
  function Wrap32(x: int): (r: Int32)
    ensures (r - x) % TwoTo32 == 0
    ensures -TwoTo31 <= x < TwoTo31 ==> r == x
  {
    var m := x % TwoTo32;
    if m < TwoTo31 then m else m - TwoTo32
  }

  /** Wrapping only depends on the value modulo 2^32. */
  lemma WrapCongruent(a: int, b: int)
    requires (a - b) % TwoTo32 == 0
    ensures Wrap32(a) == Wrap32(b)
  {
    var k := (a - b) / TwoTo32;
    assert a == b + k * TwoTo32;
    assert a % TwoTo32 == b % TwoTo32;
  }

  /** One step of a Java `int` polynomial hash may wrap early or late. */
  lemma WrapLinearStep(c: int, x: int, y: int)
    ensures Wrap32(c * Wrap32(x) + y) == Wrap32(c * x + y)
  {
    var w := Wrap32(x);
    var k := (w - x) / TwoTo32;
    assert w == x + k * TwoTo32;
    assert c * w + y == c * x + y + (c * k) * TwoTo32;
    assert ((c * w + y) - (c * x + y)) % TwoTo32 == 0;
    WrapCongruent(c * w + y, c * x + y);
  }

  /**
   * A value stored in a `java.util.Properties` table: a `String`, or any
   * other object (the reverse-engineering code stores `Boolean`s there).
   */
  datatype PropertyValue = Text(text: string) | Flag(flag: bool)

  /**
   * `Properties.getProperty(key)`: the value when it is a `String`, and
   * `null` when the key is absent or holds a non-`String` value.
   */
  function GetProperty(table: map<string, PropertyValue>, key: string): (r: Option<string>)
    ensures r.Some? <==> key in table && table[key].Text?
    ensures r.Some? ==> table[key] == Text(r.value)
  {
    if key in table && table[key].Text? then Some(table[key].text) else None
  }
}
