/** Division, multiples, powers and sizes. */
module Arithmetic {

  function Pow(base: nat, n: nat): (r: nat)
    ensures base > 0 ==> r > 0
  {
    if n == 0 then 1 else base * Pow(base, n - 1)
  }

  lemma DivMod(q: nat, d: nat, r: nat)
    requires r < d
    ensures (q * d + r) / d == q && (q * d + r) % d == r
  {
    var x := q * d + r;
    var a := x / d;
    assert (q - a) * d == x % d - r;
    NoMultiple(q - a, d);
    NoMultiple(a - q, d);
  }

  lemma NoMultiple(k: int, d: nat)
    requires d > 0
    ensures k > 0 ==> k * d >= d
  {
    if k > 0 { Monotone(1, k, d); }
  }

  lemma Monotone(a: nat, b: nat, d: nat)
    requires a <= b
    ensures a * d <= b * d
  {
  }

  lemma MulGap(q: int, r: int, k: nat)
    ensures q >= r + 1 ==> q * k >= r * k + k
  {
    if q >= r + 1 {
      assert (q - r - 1) * k >= 0;
      assert q * k == r * k + k + (q - r - 1) * k;
    }
  }

  lemma Euclid(a: nat, k: nat)
    requires k > 0
    ensures a == a / k * k + a % k && a % k < k
  {
  }

  lemma {:induction false} SubsetSize<T>(a: set<T>, b: set<T>)
    requires a <= b
    ensures |a| <= |b|
    decreases |a|
  {
    if a != {} {
      var x :| x in a;
      SubsetSize(a - {x}, b - {x});
    }
  }

  lemma SameSize<T>(a: set<T>, b: set<T>)
    requires a <= b && |a| == |b|
    ensures a == b
  {
    assert b == a + (b - a);
  }

  const MAX64: nat := 0xFFFF_FFFF_FFFF_FFFF
}
