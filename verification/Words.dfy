/** 64-bit machine words, as the kernel's `uint64_t` and `uintptr_t` use them. */
module Words {
  const TWO_63: int := 0x8000_0000_0000_0000
  const TWO_64: int := 0x1_0000_0000_0000_0000

  /** An unsigned 64-bit value. */
  type Word = x: int | 0 <= x < TWO_64

  /** The value a 64-bit register holds after an operation whose exact result is `x`. */
  function Wrap(x: int): Word {
    x % TWO_64
  }

  lemma WrapSmall(x: int)
    requires 0 <= x < TWO_64
    ensures Wrap(x) == x
  {
  }

  /** Wrapping once at the end is enough. */
  lemma WrapStep(x: int, d: int)
    ensures Wrap(Wrap(x) + d) == Wrap(x + d)
  {
    var q := x / TWO_64;
    assert x + d == Wrap(x) + d + q * TWO_64;
  }

  /** The cast `(int64_t)x`. */
  function Signed(x: Word): int {
    if x < TWO_63 then x else x - TWO_64
  }
}
