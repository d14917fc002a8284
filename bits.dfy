/**
 * Bitwise OR and bit tests on naturals. The rank masks of `src/hand.rs`
 * are `i32` values that only ever hold the thirteen low bits, so they are
 * modelled as naturals with OR defined bit by bit.
 */
module Bits {
  /** `2^e`. */
  function Pow2(e: nat): (p: nat)
    ensures p >= 1
  {
    if e == 0 then 1 else 2 * Pow2(e - 1)
  }

  /** Bitwise OR, lowest bit first. */
  function Or(a: nat, b: nat): nat
    decreases a + b
  {
    if a == 0 then b
    else if b == 0 then a
    else 2 * Or(a / 2, b / 2) + (if a % 2 == 1 || b % 2 == 1 then 1 else 0)
  }

  /** Whether bit `r` of `m` is set. */
  predicate HasBit(m: nat, r: nat) {
    if r == 0 then m % 2 == 1 else HasBit(m / 2, r - 1)
  }

  lemma {:induction false} NoBitOfZero(r: nat)
    ensures !HasBit(0, r)
  {
    if r > 0 {
      NoBitOfZero(r - 1);
    }
  }

  /** A bit of `a | b` is set exactly when it is set in `a` or in `b`. */
  lemma {:induction false} BitOfOr(a: nat, b: nat, r: nat)
    ensures HasBit(Or(a, b), r) <==> HasBit(a, r) || HasBit(b, r)
  {
    if a == 0 || b == 0 {
      NoBitOfZero(r);
    } else if r > 0 {
      BitOfOr(a / 2, b / 2, r - 1);
      assert Or(a, b) / 2 == Or(a / 2, b / 2);
    }
  }

  /** `2^k` has exactly bit `k` set. */
  lemma {:induction false} BitOfPow2(k: nat, r: nat)
    ensures HasBit(Pow2(k), r) <==> k == r
  {
    if k == 0 {
      if r > 0 {
        NoBitOfZero(r - 1);
      }
    } else if r > 0 {
      assert Pow2(k) / 2 == Pow2(k - 1);
      BitOfPow2(k - 1, r - 1);
    }
  }

  /** A natural is determined by its bits. */
  lemma {:induction false} BitsDetermine(a: nat, b: nat)
    requires forall r: nat :: HasBit(a, r) <==> HasBit(b, r)
    ensures a == b
    decreases a + b
  {
    assert HasBit(a, 0) <==> HasBit(b, 0);
    if a + b > 0 {
      forall r: nat ensures HasBit(a / 2, r) <==> HasBit(b / 2, r) {
        assert HasBit(a, r + 1) <==> HasBit(b, r + 1);
      }
      BitsDetermine(a / 2, b / 2);
    }
  }

  /** OR keeps values below `2^n`. */
  lemma {:induction false} OrBelow(a: nat, b: nat, n: nat)
    requires a < Pow2(n) && b < Pow2(n)
    ensures Or(a, b) < Pow2(n)
  {
    if n > 0 && a != 0 && b != 0 {
      OrBelow(a / 2, b / 2, n - 1);
    }
  }

  lemma OrSwap(x: nat, y: nat, z: nat)
    ensures Or(Or(x, y), z) == Or(Or(x, z), y)
  {
    forall r: nat ensures HasBit(Or(Or(x, y), z), r) <==> HasBit(Or(Or(x, z), y), r) {
      BitOfOr(Or(x, y), z, r);
      BitOfOr(x, y, r);
      BitOfOr(Or(x, z), y, r);
      BitOfOr(x, z, r);
    }
    BitsDetermine(Or(Or(x, y), z), Or(Or(x, z), y));
  }

  /** ORing in a bit that is either absent or already `v` makes no difference once `v` is ORed in. */
  lemma OrAbsorbs(x: nat, y: nat, v: nat)
    requires y == 0 || y == v
    ensures Or(Or(x, y), v) == Or(x, v)
  {
    forall r: nat ensures HasBit(Or(Or(x, y), v), r) <==> HasBit(Or(x, v), r) {
      BitOfOr(Or(x, y), v, r);
      BitOfOr(x, y, r);
      BitOfOr(x, v, r);
    }
    BitsDetermine(Or(Or(x, y), v), Or(x, v));
  }
}
