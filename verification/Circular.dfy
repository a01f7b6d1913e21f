/** Positions in a circular buffer of any size: frame k of a stream lives in slot k modulo the size. */
module Circular {

  /** The slot of the k-th frame. */
  function Place(k: nat, size: nat): (slot: nat)
    requires size > 0
    ensures slot < size
  {
    k % size
  }

  /** A frame less than one lap further on is straight ahead, or one lap back. */
  lemma PlaceAhead(k: nat, f: nat, size: nat)
    requires 0 < size && f <= size
    ensures Place(k + f, size) == var p := Place(k, size) + f; if p >= size then p - size else p
  {
    var q, r := k / size, k % size;
    Quotient(k, size);
    if r + f >= size {
      Remainder(k + f, size, q + 1, r + f - size);
    } else {
      Remainder(k + f, size, q, r + f);
    }
  }

  lemma Quotient(k: nat, size: nat)
    requires 0 < size
    ensures k == k / size * size + k % size
  {
  }

  lemma Remainder(k: nat, size: nat, q: nat, r: nat)
    requires r < size && k == q * size + r
    ensures k % size == r
  {
    Quotient(k, size);
    var d := k / size;
    if d < q {
      MoreLaps(d, q, size);
    } else if q < d {
      MoreLaps(q, d, size);
    }
  }

  lemma PlaceZero(size: nat)
    requires 0 < size
    ensures Place(0, size) == 0
  {
    Remainder(0, size, 0, 0);
  }

  lemma MoreLaps(a: nat, b: nat, size: nat)
    requires a < b
    ensures a * size + size <= b * size
  {
    var extra := b - a - 1;
    assert b * size == a * size + size + extra * size;
  }

  /** A frame k less than a lap behind `top` sits where the slot a lap further on is. */
  lemma SamePlace(top: nat, k: nat, size: nat)
    requires 0 < size && k < top <= k + size
    ensures var f := k + size - top;
            Place(k, size) == var s := Place(top, size) + f; if s >= size then s - size else s
  {
    PlaceAhead(k, size, size);
    PlaceAhead(top, k + size - top, size);
  }

  /** Frames of one lap never share a slot. */
  lemma PlacesDiffer(a: nat, b: nat, size: nat)
    requires 0 < size && a < b < a + size
    ensures Place(a, size) != Place(b, size)
  {
    PlaceAhead(a, b - a, size);
  }

  /** Adding one modulo the size is the next slot. */
  lemma NextPlace(k: nat, size: nat)
    requires 0 < size
    ensures (Place(k, size) + 1) % size == Place(k + 1, size)
  {
    PlaceAhead(k, 1, size);
    var p := Place(k, size) + 1;
    if p < size {
      Remainder(p, size, 0, p);
    } else {
      Remainder(p, size, 1, 0);
    }
  }
}
