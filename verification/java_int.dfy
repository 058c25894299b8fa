/** Java's 32-bit `int`: its range and the two's-complement wrap-around of
    its arithmetic. */
module JavaInt {

  const Int32Min: int := -0x8000_0000
  const Int32Max: int := 0x7fff_ffff
  const Int32Span: int := 0x1_0000_0000

  predicate IsInt32(x: int)
  {
    Int32Min <= x <= Int32Max
  }

  /** Two's-complement reduction of an integer to the Java `int` range. */
  function Wrap32(x: int): (r: int)
    ensures IsInt32(r)
    ensures IsInt32(x) ==> r == x
    ensures (r - x) % Int32Span == 0
  {
    (x - Int32Min) % Int32Span + Int32Min
  }

  /** A difference of two `int`s wraps to 0 only when it is 0. */
  lemma Wrap32Zero(x: int)
    requires -Int32Span < x < Int32Span
    ensures Wrap32(x) == 0 <==> x == 0
  {
  }
}
