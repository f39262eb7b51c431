/** Quotients and remainders. */
module Arithmetic {

  lemma SmallMultiple(size: int, k: int)
    requires -size < k * size < size
    ensures k == 0
  {}

  /** Dividing with a remainder has one answer. */
  lemma DivMod(n: int, size: int, quotient: int, remainder: nat)
    requires remainder < size && n == quotient * size + remainder
    ensures n / size == quotient && n % size == remainder
  {
    assert n == (n / size) * size + n % size;
    assert (n / size - quotient) * size == remainder - n % size;
    SmallMultiple(size, n / size - quotient);
  }
}
