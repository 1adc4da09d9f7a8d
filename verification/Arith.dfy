// Facts about numbers, sets and sequences that several modules share.

module Arith {

  lemma MulAtLeast(a: int, z: int)
    requires a >= 1 && z >= 0
    ensures a * z >= z
  {
    assert (a - 1) * z >= 0;
  }

  lemma OnlyZeroBetween(d: int, z: int)
    requires -z < d * z < z
    ensures d == 0
  {
    if d >= 1 {
      MulAtLeast(d, z);
    } else if d <= -1 {
      MulAtLeast(-d, z);
    }
  }

  lemma DivIs(x: int, z: int, q: int, r: int)
    requires z > 0 && x == q * z + r && 0 <= r < z
    ensures x / z == q && x % z == r
  {
    var p := x / z;
    assert x == z * p + x % z;
    assert (q - p) * z == x % z - r;
    OnlyZeroBetween(q - p, z);
  }

  lemma DivMul(q: int, z: int)
    requires z > 0
    ensures (q * z) / z == q && (q * z) % z == 0
  {
    DivIs(q * z, z, q, 0);
  }

  lemma MulMono(a: int, b: int, z: int)
    requires a <= b && z >= 0
    ensures a * z <= b * z
  {
    assert (b - a) * z >= 0;
  }

  lemma DivMono(x: int, y: int, z: int)
    requires x <= y && z > 0
    ensures x / z <= y / z
  {
    if x / z > y / z {
      MulMono(y / z + 1, x / z, z);
    }
  }

  lemma ModPlus(x: int, q: int, z: int)
    requires z > 0
    ensures (x + q * z) % z == x % z
  {
    var p := x / z;
    assert x == p * z + x % z;
    assert x + q * z == (p + q) * z + x % z;
    DivIs(x + q * z, z, p + q, x % z);
  }

  function Pow2(k: nat): (p: nat)
    ensures p > 0
  {
    if k == 0 then 1 else 2 * Pow2(k - 1)
  }

  lemma HalvesDivide(x: nat, p: nat)
    requires p > 0
    ensures x / 2 / p == x / (2 * p)
  {
    var h := x / 2;
    var q, r := h / p, h % p;
    assert h == q * p + r;
    assert x == q * (2 * p) + (2 * r + x % 2) by {
      assert x == 2 * (q * p) + 2 * r + x % 2;
    }
    DivIs(x, 2 * p, q, 2 * r + x % 2);
  }

  // Bit i of a number.
  predicate BitOf(n: nat, i: nat) {
    n / Pow2(i) % 2 == 1
  }

  lemma LowestBit(n: nat)
    ensures BitOf(n, 0) <==> n % 2 == 1
  {
    assert n / Pow2(0) == n;
  }

  lemma NextBit(n: nat, i: nat)
    requires i > 0
    ensures BitOf(n, i) <==> BitOf(n / 2, i - 1)
  {
    HalvesDivide(n, Pow2(i - 1));
  }

  lemma HalveSum(low: nat, x: nat)
    ensures (low + 2 * x) / 2 == low / 2 + x && (low + 2 * x) % 2 == low % 2
  {
  }

  lemma DoublePow(m: nat, high: nat)
    requires m > 0
    ensures Pow2(m) * high == 2 * (Pow2(m - 1) * high) && Pow2(m) == 2 * Pow2(m - 1)
  {
  }

  // Two numbers side by side: the low m bits are those of the first.
  lemma {:induction false} BitsJoin(low: nat, high: nat, m: nat, i: nat)
    requires low < Pow2(m)
    ensures BitOf(low + Pow2(m) * high, i) <==> if i < m then BitOf(low, i) else BitOf(high, i - m)
    decreases m, i
  {
    if m == 0 {
      assert low + Pow2(0) * high == high;
    } else {
      hide BitOf, Pow2;
      DoublePow(m, high);
      HalveSum(low, Pow2(m - 1) * high);
      if i > 0 {
        NextBit(low + Pow2(m) * high, i);
        BitsJoin(low / 2, high, m - 1, i - 1);
        if i < m {
          NextBit(low, i);
        }
      } else {
        LowestBit(low + Pow2(m) * high);
        LowestBit(low);
      }
    }
  }

  predicate IsPow2(n: nat) {
    n == 1 || (n > 1 && n % 2 == 0 && IsPow2(n / 2))
  }

  // Of two powers of two the smaller divides the larger.
  lemma {:induction false} PowersDivide(a: nat, b: nat)
    requires IsPow2(a) && IsPow2(b) && a <= b
    ensures a > 0 && b % a == 0
  {
    if a == 1 {
    } else {
      PowersDivide(a / 2, b / 2);
      var q := b / 2 / (a / 2);
      assert b / 2 == q * (a / 2);
      assert a == 2 * (a / 2) && b == 2 * (b / 2);
      assert b == q * a;
      DivMul(q, a);
    }
  }

  lemma {:induction false} Pow2IsPow2(k: nat)
    ensures IsPow2(Pow2(k))
  {
    if k > 0 {
      Pow2IsPow2(k - 1);
    }
  }

  lemma SubsetSize<T>(small: set<T>, large: set<T>)
    requires small <= large
    ensures |small| <= |large|
    ensures |small| == |large| ==> small == large
  {
    assert large == small + (large - small);
    assert |large| == |small| + |large - small|;
  }

  // A set that has gained n, or nothing.
  lemma OneMoreIn(small: set<nat>, large: set<nat>, n: nat, more: bool)
    requires n !in small && forall i: nat :: i in large <==> i in small || (more && i == n)
    ensures |large| == |small| + if more then 1 else 0
  {
    assert large == if more then small + {n} else small;
  }

  function Repeat<T>(x: T, n: nat): (s: seq<T>)
    ensures |s| == n && forall i :: 0 <= i < n ==> s[i] == x
  {
    seq(n, _ => x)
  }
}
