/** Bitwise operations on unsigned integers, bit by bit. */
module Bitwise {
  import opened Arith
  import opened Bytes

  function And(a: nat, b: nat): nat {
    if a == 0 || b == 0 then 0
    else (if a % 2 == 1 && b % 2 == 1 then 1 else 0) + 2 * And(a / 2, b / 2)
  }

  function Or(a: nat, b: nat): nat
    decreases a + b
  {
    if a == 0 && b == 0 then 0
    else (if a % 2 == 1 || b % 2 == 1 then 1 else 0) + 2 * Or(a / 2, b / 2)
  }

  lemma {:induction false} OrZero(b: nat)
    ensures Or(0, b) == b
  {
    if b != 0 { OrZero(b / 2); }
  }

  lemma OrEven(a: nat, half: nat)
    ensures Or(a, 2 * half) == a % 2 + 2 * Or(a / 2, half)
  {
  }

  lemma AndEven(x: nat, half: nat)
    ensures And(x, 2 * half) == 2 * And(x / 2, half)
  {
  }

  lemma AndOdd(x: nat, half: nat)
    ensures And(x, 2 * half + 1) == x % 2 + 2 * And(x / 2, half)
  {
    if half == 0 { assert And(x / 2, half) == 0; }
  }

  lemma HalfBelow(a: nat, p: nat)
    requires a < 2 * p
    ensures a / 2 < p
  {
  }

  lemma DoubleProduct(q: nat, p: nat)
    ensures q * (2 * p) == 2 * (q * p)
  {
  }

  /** Numbers without common bits: OR is addition. */
  lemma {:induction false} OrDisjoint(a: nat, q: nat, k: nat)
    requires a < Pow2(k)
    ensures Or(a, q * Pow2(k)) == a + q * Pow2(k)
    decreases k
  {
    if k == 0 {
      OrZero(q);
    } else {
      var p := Pow2(k - 1);
      HalfBelow(a, p);
      hide Or, Pow2;
      OrDisjoint(a / 2, q, k - 1);
      Pow2Step(k);
      DoubleProduct(q, p);
      OrEven(a, q * p);
    }
  }

  /** Masking the low `k` bits. */
  lemma {:induction false} AndLowBits(x: nat, k: nat)
    ensures And(x, Pow2(k) - 1) == Rem(x, Pow2(k))
    decreases k
  {
    hide Rem, Pow2;
    if k == 0 {
      Pow2Zero();
      RemOne(x);
    } else {
      Pow2Step(k);
      AndLowBits(x / 2, k - 1);
      RemDouble(x, Pow2(k - 1));
      AndOdd(x, Pow2(k - 1) - 1);
      hide And;
    }
  }

  /** Testing bit `k`, the top one. */
  lemma {:induction false} AndTopBit(x: nat, k: nat)
    requires x < 2 * Pow2(k)
    ensures And(x, Pow2(k)) == if x < Pow2(k) then 0 else Pow2(k)
    decreases k
  {
    if k > 0 {
      hide Pow2;
      Pow2Step(k);
      HalfBelow(x, Pow2(k));
      AndTopBit(x / 2, k - 1);
      AndEven(x, Pow2(k - 1));
      hide And;
    }
  }

  /** Setting bit `k`, the top one. */
  lemma {:induction false} OrTopBit(x: nat, k: nat)
    requires x < 2 * Pow2(k)
    ensures Or(x, Pow2(k)) == Rem(x, Pow2(k)) + Pow2(k)
    decreases k
  {
    if k == 0 {
      RemOne(x);
      assert Or(0, 0) == 0;
    } else {
      hide Pow2, Rem;
      Pow2Step(k);
      HalfBelow(x, Pow2(k));
      OrTopBit(x / 2, k - 1);
      OrEven(x, Pow2(k - 1));
      RemDouble(x, Pow2(k - 1));
      hide Or;
    }
  }

  lemma Pow2Zero()
    ensures Pow2(0) == 1
  {
  }

  lemma Pow2Step(n: nat)
    requires n > 0
    ensures Pow2(n) == 2 * Pow2(n - 1)
  {
  }

  lemma RemOne(x: nat)
    ensures Rem(x, 1) == 0
  {
    QuotRem(x, 1);
  }
}
