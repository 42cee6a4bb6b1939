/** Go's int64 and its wrap-around addition, and the 32-bit counter of a WaitGroup. */
module Int64 {
  const TWO63: int := 0x8000_0000_0000_0000
  const TWO64: int := 0x1_0000_0000_0000_0000

  type int64 = x: int | -0x8000_0000_0000_0000 <= x < 0x8000_0000_0000_0000

  /** Two's complement: what an int64 addition makes of the true result. */
  function Wrap(x: int): int64
    decreases if x < -TWO63 then -x else if TWO63 <= x then x else 0
  {
    if x < -TWO63 then Wrap(x + TWO64) else if TWO63 <= x then Wrap(x - TWO64) else x
  }

  const TWO31: int := 0x8000_0000
  const TWO32: int := 0x1_0000_0000

  /** The low 32 bits of an integer, as an int32. */
  function Narrow(x: int): (r: int)
    ensures -TWO31 <= r < TWO31
    decreases if x < -TWO31 then -x else if TWO31 <= x then x else 0
  {
    if x < -TWO31 then Narrow(x + TWO32) else if TWO31 <= x then Narrow(x - TWO32) else x
  }

  /** Narrowing keeps the value modulo 2 to the 32, and small values altogether. */
  lemma {:induction false} NarrowIsCongruent(x: int) returns (q: int)
    ensures Narrow(x) == x + q * TWO32
    ensures -TWO31 <= x < TWO31 ==> Narrow(x) == x
    decreases if x < -TWO31 then -x else if TWO31 <= x then x else 0
  {
    if x < -TWO31 {
      q := NarrowIsCongruent(x + TWO32);
      q := q + 1;
    } else if TWO31 <= x {
      q := NarrowIsCongruent(x - TWO32);
      q := q - 1;
    } else {
      q := 0;
    }
  }

  /** The result differs from the true one by a multiple of 2 to the 64. */
  lemma {:induction false} WrapIsCongruent(x: int) returns (q: int)
    ensures Wrap(x) == x + q * TWO64
    decreases if x < -TWO63 then -x else if TWO63 <= x then x else 0
  {
    if x < -TWO63 {
      q := WrapIsCongruent(x + TWO64);
      q := q + 1;
    } else if TWO63 <= x {
      q := WrapIsCongruent(x - TWO64);
      q := q - 1;
    } else {
      q := 0;
    }
  }

  lemma WrapPeriod(x: int)
    ensures Wrap(x - TWO64) == Wrap(x)
  {
  }

  /** Wrapping early or late comes to the same. */
  lemma {:induction false} WrapAdd(x: int, y: int)
    ensures Wrap(Wrap(x) + y) == Wrap(x + y)
    decreases if x < -TWO63 then -x else if TWO63 <= x then x else 0
  {
    if x < -TWO63 {
      WrapAdd(x + TWO64, y);
      WrapPeriod(x + TWO64 + y);
    } else if TWO63 <= x {
      WrapAdd(x - TWO64, y);
      WrapPeriod(x + y);
    }
  }
}
