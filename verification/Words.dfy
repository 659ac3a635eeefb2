/** Fixed-width machine words. Go's uint64 arithmetic wraps, so it is written out with Wrap64. */
module Words {
  type Word32 = x: int | 0 <= x < 0x1_0000_0000

  type Word64 = x: int | 0 <= x < 0x1_0000_0000_0000_0000

  function Wrap64(x: int): (w: Word64) {
    x % 0x1_0000_0000_0000_0000
  }

  datatype Option<+T> = None | Some(value: T)

  lemma WrapTwice(a: int, b: int)
    ensures Wrap64(Wrap64(a) + b) == Wrap64(a + b)
  {
  }
}
