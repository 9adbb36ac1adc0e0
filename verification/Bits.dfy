/** Bitwise arithmetic on big non-negative integers, and what each operation does to every bit. */
module Bits {
  import opened Common

  /** Bit `k` of the binary form of `n`. */
  predicate Bit(n: nat, k: nat) {
    if k == 0 then n % 2 == 1 else Bit(n / 2, k - 1)
  }

  function Digit(b: bool): nat { if b then 1 else 0 }

  /** `a | b`. */
  function Or(a: nat, b: nat): nat
    decreases a + b
  {
    if a == 0 && b == 0 then 0 else Digit(a % 2 == 1 || b % 2 == 1) + 2 * Or(a / 2, b / 2)
  }

  /** `a & b`. */
  function And(a: nat, b: nat): nat
    decreases a + b
  {
    if a == 0 && b == 0 then 0 else Digit(a % 2 == 1 && b % 2 == 1) + 2 * And(a / 2, b / 2)
  }

  /** `a & ~b`. */
  function AndNot(a: nat, b: nat): nat
    decreases a + b
  {
    if a == 0 && b == 0 then 0 else Digit(a % 2 == 1 && b % 2 == 0) + 2 * AndNot(a / 2, b / 2)
  }

  /** `n << k`. */
  function Shl(n: nat, k: nat): nat {
    if k == 0 then n else 2 * Shl(n, k - 1)
  }

  lemma {:induction false} ZeroBit(k: nat)
    ensures !Bit(0, k)
  {
    if k > 0 { ZeroBit(k - 1); }
  }

  lemma DigitStep(b: bool, n: nat, k: nat)
    ensures Bit(Digit(b) + 2 * n, k) <==> if k == 0 then b else Bit(n, k - 1)
  {
  }

  lemma {:induction false} OrBit(a: nat, b: nat, k: nat)
    ensures Bit(Or(a, b), k) <==> Bit(a, k) || Bit(b, k)
    decreases a + b
  {
    if a == 0 && b == 0 {
      ZeroBit(k);
    } else {
      DigitStep(a % 2 == 1 || b % 2 == 1, Or(a / 2, b / 2), k);
      if k > 0 { OrBit(a / 2, b / 2, k - 1); }
    }
  }

  lemma {:induction false} AndBit(a: nat, b: nat, k: nat)
    ensures Bit(And(a, b), k) <==> Bit(a, k) && Bit(b, k)
    decreases a + b
  {
    if a == 0 && b == 0 {
      ZeroBit(k);
    } else {
      DigitStep(a % 2 == 1 && b % 2 == 1, And(a / 2, b / 2), k);
      if k > 0 { AndBit(a / 2, b / 2, k - 1); }
    }
  }

  lemma {:induction false} AndNotBit(a: nat, b: nat, k: nat)
    ensures Bit(AndNot(a, b), k) <==> Bit(a, k) && !Bit(b, k)
    decreases a + b
  {
    if a == 0 && b == 0 {
      ZeroBit(k);
    } else {
      DigitStep(a % 2 == 1 && b % 2 == 0, AndNot(a / 2, b / 2), k);
      if k > 0 { AndNotBit(a / 2, b / 2, k - 1); }
    }
  }

  /** Shifting moves every bit up and leaves zeros below. */
  lemma {:induction false} ShlBit(n: nat, k: nat, j: nat)
    ensures Bit(Shl(n, k), j) <==> j >= k && Bit(n, j - k)
  {
    if k > 0 {
      DigitStep(false, Shl(n, k - 1), j);
      if j > 0 { ShlBit(n, k - 1, j - 1); }
    }
  }

  /** One shifted by `k` is the number whose only bit is bit `k`. */
  lemma OneShifted(k: nat, j: nat)
    ensures Bit(Shl(1, k), j) <==> j == k
  {
    ShlBit(1, k, j);
    if j > k { ZeroBit(j - k - 1); }
  }

  /** Two numbers with the same bits are the same number. */
  lemma {:induction false} SameBits(a: nat, b: nat)
    requires forall k: nat :: Bit(a, k) == Bit(b, k)
    ensures a == b
    decreases a + b
  {
    assert Bit(a, 0) == Bit(b, 0);
    if a != 0 || b != 0 {
      forall k: nat ensures Bit(a / 2, k) == Bit(b / 2, k) {
        assert Bit(a, k + 1) == Bit(b, k + 1);
      }
      SameBits(a / 2, b / 2);
    }
  }

  ghost predicate Bitless(n: nat) {
    forall k: nat :: !Bit(n, k)
  }

  /** Every bit of the mask is a bit of the number. */
  ghost predicate Covers(a: nat, mask: nat) {
    forall k: nat :: Bit(mask, k) ==> Bit(a, k)
  }

  ghost predicate Disjoint(a: nat, b: nat) {
    forall k: nat :: !(Bit(a, k) && Bit(b, k))
  }

  /** A number is zero exactly when it has no bits. */
  lemma NoBits(n: nat)
    ensures n == 0 <==> Bitless(n)
  {
    forall k: nat ensures !Bit(0, k) { ZeroBit(k); }
    if Bitless(n) { SameBits(n, 0); }
  }

  /** The masked number is the mask exactly when the number covers it. */
  lemma MaskCovered(a: nat, mask: nat)
    ensures And(a, mask) == mask <==> Covers(a, mask)
  {
    forall k: nat ensures Bit(And(a, mask), k) <==> Bit(a, k) && Bit(mask, k) { AndBit(a, mask, k); }
    if Covers(a, mask) { SameBits(And(a, mask), mask); }
  }

  /** Or of several numbers. */
  function OrAll(ns: seq<nat>): nat {
    if ns == [] then 0 else Or(OrAll(ns[..|ns| - 1]), ns[|ns| - 1])
  }

  lemma {:induction false} OrAllBit(ns: seq<nat>, k: nat)
    ensures Bit(OrAll(ns), k) <==> exists n :: n in ns && Bit(n, k)
  {
    if ns == [] {
      ZeroBit(k);
    } else {
      var init, last := ns[..|ns| - 1], ns[|ns| - 1];
      assert ns == init + [last];
      OrAllBit(init, k);
      OrBit(OrAll(init), last, k);
      assert forall n :: n in ns <==> n in init || n == last;
    }
  }

  /** Numbers without a common bit are or-ed by adding them. */
  lemma {:induction false} OrDisjoint(a: nat, b: nat)
    requires Disjoint(a, b)
    ensures Or(a, b) == a + b
    decreases a + b
  {
    if a != 0 || b != 0 {
      assert !(Bit(a, 0) && Bit(b, 0));
      forall k: nat ensures !(Bit(a / 2, k) && Bit(b / 2, k)) {
        assert !(Bit(a, k + 1) && Bit(b, k + 1));
      }
      OrDisjoint(a / 2, b / 2);
    }
  }
}
