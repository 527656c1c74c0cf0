/** The 32-bit unsigned arithmetic the kernel uses for ticks and wait sequence numbers. */
module Words {

  const TWO31: nat := 0x8000_0000
  const TWO32: nat := 0x1_0000_0000

  /** RTOS_WAIT_FOREVER */
  const WAIT_FOREVER: Word := 0xFFFF_FFFF

  type Word = x: nat | x < 0x1_0000_0000

  newtype Byte = x: int | 0 <= x < 256

  /** The value of an unbounded integer in a uint32_t. */
  function Wrap32(x: int): (r: Word)
  {
    x % TWO32
  }

  /** `(int32_t)(a - b) < 0` on two uint32_t values. */
  predicate SignedLess(a: Word, b: Word)
  {
    Wrap32(a - b) >= TWO31
  }

  /** Has the wrapping tick `now` met the wrapping deadline? */
  predicate DeadlineReached(now: Word, deadline: Word)
  {
    Wrap32(now - deadline) < TWO31
  }

  predicate TimeoutValid(timeout: Word)
  {
    timeout == WAIT_FOREVER || timeout < TWO31
  }

  /** Truncating the operands first does not change a truncated difference. */
  lemma WrapDifference(x: int, y: int)
    ensures Wrap32(Wrap32(x) - Wrap32(y)) == Wrap32(x - y)
  {
    var q := x / TWO32 - y / TWO32;
    assert x - y == q * TWO32 + (Wrap32(x) - Wrap32(y));
    WrapShift(Wrap32(x) - Wrap32(y), q);
  }

  lemma WrapSum(x: int, y: int)
    ensures Wrap32(Wrap32(x) + y) == Wrap32(x + y)
  {
    assert x + y == x / TWO32 * TWO32 + (Wrap32(x) + y);
    WrapShift(Wrap32(x) + y, x / TWO32);
  }

  lemma WrapShift(z: int, q: int)
    ensures Wrap32(z + q * TWO32) == Wrap32(z)
  {
    var d := (z + q * TWO32) / TWO32;
    var r := Wrap32(z + q * TWO32);
    assert z == (d - q) * TWO32 + r;
  }

  /** The wrapping deadline test is exact: while a deadline is neither 2^31 or more ticks ahead nor
      2^31 or more ticks gone, it is reported exactly when the unbounded clock has reached it. */
  lemma DeadlineExact(now: nat, deadline: nat)
    requires deadline - TWO31 < now + 1 <= deadline + TWO31
    ensures DeadlineReached(Wrap32(now), Wrap32(deadline)) <==> (now >= deadline)
  {
    WrapDifference(now, deadline);
    if now < deadline {
      WrapShift(now - deadline, 1);
    }
  }

  lemma WrapNegation(d: int)
    ensures Wrap32(-d) == if Wrap32(d) == 0 then 0 else TWO32 - Wrap32(d)
  {
    var r, q := Wrap32(d), d / TWO32;
    if r == 0 {
      WrapShift(0, -q);
    } else {
      WrapShift(TWO32 - r, -q - 1);
    }
  }

  /** For two unbounded sequence numbers a < b the signed comparison puts a strictly before b, in
      both directions of asking, exactly when their distance is below 2^31 modulo 2^32. */
  lemma SignedOrderExact(a: nat, b: nat)
    requires a < b
    ensures (SignedLess(Wrap32(a), Wrap32(b)) && !SignedLess(Wrap32(b), Wrap32(a)))
            <==> 0 < (b - a) % TWO32 < TWO31
  {
    WrapDifference(a, b);
    WrapDifference(b, a);
    WrapNegation(b - a);
  }
}
