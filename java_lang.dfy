/** The pieces of Java's value semantics that the repacking code depends on. */
module JavaLang {

  /** A Java `byte`: a signed 8-bit value. The code only copies bytes, so no
      arithmetic is defined on it. */
  newtype Byte = b: int | -128 <= b < 128

  /** Java's `int` range. */
  predicate IsInt(x: int) {
    -0x8000_0000 <= x < 0x8000_0000
  }

  /** Java's integer division `a / b`, which truncates toward zero (Dafny's `/`
      is Euclidean and differs for a negative dividend). */
  function Div(a: int, b: int): int
    requires 0 < b
  {
    if 0 <= a then a / b else -((-a) / b)
  }
}
