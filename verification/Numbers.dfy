/** Machine words and the few facts about real products that the proofs need. */
module Numbers {

  type u32 = x: int | 0 <= x < 0x1_0000_0000

  /** Unsigned 32-bit arithmetic keeps the remainder modulo 2^32. */
  function Wrap(x: int): u32 { x % 0x1_0000_0000 }

  /** Wrapping early does not matter. */
  lemma WrapAdd(counter: nat, n: nat)
    ensures Wrap(Wrap(counter) + n) == Wrap(counter + n)
  {
  }

  function Min(a: int, b: int): int { if a <= b then a else b }

  function Max(a: int, b: int): int { if a <= b then b else a }

  lemma ProductNonNegative(x: real, y: real)
    requires 0.0 <= x && 0.0 <= y
    ensures 0.0 <= x * y
  {
  }

  lemma ProductMonotone(x: real, y: real, z: real)
    requires x <= y && 0.0 <= z
    ensures x * z <= y * z
  {
    ProductNonNegative(y - x, z);
    Distribute(y, -x, z);
    Negate(x, z);
  }

  lemma Distribute(x: real, y: real, z: real)
    ensures (x + y) * z == x * z + y * z
  {
  }

  lemma Negate(x: real, y: real)
    ensures (-x) * y == -(x * y)
  {
  }

  /** A fraction of a distance stays within the distance, whichever way it points. */
  lemma FractionOf(d: real, mu: real)
    requires 0.0 <= mu <= 1.0
    ensures 0.0 <= d ==> 0.0 <= d * mu <= d
    ensures d <= 0.0 ==> d <= d * mu <= 0.0
  {
    if 0.0 <= d {
      ProductMonotone(0.0, mu, d);
      ProductMonotone(mu, 1.0, d);
    } else {
      ProductMonotone(0.0, mu, -d);
      ProductMonotone(mu, 1.0, -d);
      Negate(d, mu);
    }
  }
}
