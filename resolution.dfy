/** `Resolution`: a width and a height, compared field by field. */
module Resolutions {

  /** The C++ `int` of both fields. */
  newtype int32 = x: int | -0x8000_0000 <= x < 0x8000_0000

  datatype Resolution = Resolution(width: int32, height: int32)

  /**
   * `Resolution::operator==`: both fields equal. Since the struct has no other
   * field, this is exactly equality of the two values.
   */
  function Equal(a: Resolution, b: Resolution): (r: bool)
    ensures r <==> a.width == b.width && a.height == b.height
    ensures r <==> a == b
  {
    a.width == b.width && a.height == b.height
  }

  lemma EqualReflexive(a: Resolution)
    ensures Equal(a, a)
  {
  }

  lemma EqualSymmetric(a: Resolution, b: Resolution)
    ensures Equal(a, b) <==> Equal(b, a)
  {
  }

  lemma EqualTransitive(a: Resolution, b: Resolution, c: Resolution)
    requires Equal(a, b) && Equal(b, c)
    ensures Equal(a, c)
  {
  }
}
