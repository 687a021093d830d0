// Go's 64-bit `int`: addition and multiplication wrap around.
module GoInt {

  const MAX_INT: int := 0x7FFF_FFFF_FFFF_FFFF
  const MIN_INT: int := -0x8000_0000_0000_0000
  const TWO_64: int := 0x1_0000_0000_0000_0000

  /** The 64-bit two's complement integer congruent to n. */
  function Wrap(n: int): (r: int)
    ensures MIN_INT <= r <= MAX_INT
    ensures MIN_INT <= n <= MAX_INT ==> r == n
    ensures (n - r) % TWO_64 == 0
  {
    var k := (n - MIN_INT) / TWO_64;
    n - k * TWO_64
  }

  /** Congruent integers have the same representative. */
  lemma WrapCongruent(a: int, b: int)
    requires (a - b) % TWO_64 == 0
    ensures Wrap(a) == Wrap(b)
  {
    var x, y := Wrap(a), Wrap(b);
    assert (x - y) % TWO_64 == 0 by {
      assert x - y == (a - b) - (a - x) + (b - y);
    }
  }

  /** Wrapping early or late makes no difference to a sum. */
  lemma WrapSum(a: int, b: int)
    ensures Wrap(Wrap(a) + b) == Wrap(a + b)
  {
    assert (Wrap(a) + b) - (a + b) == -(a - Wrap(a));
    WrapCongruent(Wrap(a) + b, a + b);
  }
}
