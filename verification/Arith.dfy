/** Division with remainder by a variable divisor, one small fact at a time. */
module Arith {
  function Quot(x: nat, m: nat): nat
    requires m > 0
  {
    x / m
  }

  function Rem(x: nat, m: nat): (r: nat)
    requires m > 0
    ensures r < m
  {
    x % m
  }

  lemma QuotRem(x: nat, m: nat)
    requires m > 0
    ensures x == Quot(x, m) * m + Rem(x, m)
  {
  }

  lemma MulAtLeast(k: nat, m: nat)
    requires k >= 1
    ensures k * m >= m
  {
  }

  lemma MulDistributes(a: int, b: int, m: int)
    ensures (a - b) * m == a * m - b * m
    ensures (a + b) * m == a * m + b * m
  {
  }

  lemma MulMonotone(a: nat, b: nat, m: nat)
    requires a <= b
    ensures a * m <= b * m
  {
    MulDistributes(b, a, m);
  }

  lemma StrictlyFewer(q: nat, r: nat, q2: nat, r2: nat, m: nat)
    requires r < m && q < q2
    ensures q * m + r < q2 * m + r2
  {
    MulDistributes(q2, q, m);
    MulAtLeast(q2 - q, m);
  }

  /** Quotient and remainder are unique. */
  lemma QuotRemUnique(x: nat, m: nat, q: nat, r: nat)
    requires m > 0 && r < m && x == q * m + r
    ensures Quot(x, m) == q && Rem(x, m) == r
  {
    QuotRem(x, m);
    hide Quot, Rem;
    var q2, r2 := Quot(x, m), Rem(x, m);
    if q < q2 { StrictlyFewer(q, r, q2, r2, m); }
    if q2 < q { StrictlyFewer(q2, r2, q, r, m); }
  }

  lemma MulCancel(a: nat, b: nat, m: nat)
    requires m > 0
    ensures a * m == b * m <==> a == b
  {
    if a < b { StrictlyFewer(a, 0, b, 0, m); }
    if b < a { StrictlyFewer(b, 0, a, 0, m); }
  }

  lemma RemDouble(x: nat, m: nat)
    requires m > 0
    ensures Rem(x, 2 * m) == x % 2 + 2 * Rem(x / 2, m)
  {
    var q, r := Quot(x / 2, m), Rem(x / 2, m);
    QuotRem(x / 2, m);
    assert x == 2 * (x / 2) + x % 2;
    hide Quot, Rem;
    assert x == q * (2 * m) + (x % 2 + 2 * r);
    QuotRemUnique(x, 2 * m, q, x % 2 + 2 * r);
  }

  /** Dividing by a product is dividing twice. */
  lemma QuotTwice(x: nat, m: nat, n: nat)
    requires m > 0 && n > 0
    ensures m * n > 0 && Quot(x, m * n) == Quot(Quot(x, m), n)
  {
    MulAtLeast(n, m);
    var y, r1 := Quot(x, m), Rem(x, m);
    var q, r2 := Quot(y, n), Rem(y, n);
    QuotRem(x, m);
    QuotRem(y, n);
    hide Quot, Rem;
    assert y * m == (q * n + r2) * m;
    Regroup(q, n, r2, m);
    StrictlyFewer(r2, r1, n, 0, m);
    QuotRemUnique(x, m * n, q, r2 * m + r1);
  }

  lemma Regroup(q: nat, n: nat, r: nat, m: nat)
    ensures (q * n + r) * m == q * (m * n) + r * m
  {
  }

  /** A multiple of m below n * m leaves room for one more m. */
  lemma RoomForOneMore(q: nat, m: nat, n: nat)
    requires q * m < n * m
    ensures q * m + m <= n * m
  {
    if q >= n { MulMonotone(n, q, m); }
    MulMonotone(q + 1, n, m);
    MulDistributes(q, 1, m);
  }

  lemma QuotIff(x: nat, q: nat, m: nat)
    requires m > 0
    ensures Quot(x, m) == q <==> q * m <= x < q * m + m
  {
    QuotRem(x, m);
    hide Quot, Rem;
    if q * m <= x < q * m + m { QuotRemUnique(x, m, q, x - q * m); }
  }
}
