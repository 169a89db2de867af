// Small things several modules share.

module Common {

  datatype Option<+T> = None | Some(value: T)

  newtype byte = x: int | 0 <= x < 0x100

  const UINT32_RANGE: int := 0x1_0000_0000

  /** The value a 32-bit unsigned field holds after storing x. */
  function Wrap32(x: int): (r: int)
    ensures 0 <= r < UINT32_RANGE
    ensures 0 <= x < UINT32_RANGE ==> r == x
  {
    x % UINT32_RANGE
  }

  lemma WrapAdd(x: int, y: int)
    ensures Wrap32(Wrap32(x) + y) == Wrap32(x + y)
  {
  }

  function Min(a: int, b: int): int { if a < b then a else b }

  lemma MulMonotone(a: nat, b: nat, c: nat, d: nat)
    requires a <= c && b <= d
    ensures a * b <= c * d
  {
  }
}
