// The integer square root of the MNIST utilities: no multiplication and no
// division, only shifts by one and two, on 32-bit unsigned words.

module Isqrt {
  import Arith

  const UINT_MAX := 0xffff_ffff

  // r is the floor of the square root of x.
  predicate IsRoot(r: nat, x: nat) {
    r * r <= x < (r + 1) * (r + 1)
  }

  lemma RootIsUnique(a: nat, b: nat, x: nat)
    requires IsRoot(a, x) && IsRoot(b, x)
    ensures a == b
  {
    if a < b {
      Square(a + 1, b);
    } else if b < a {
      Square(b + 1, a);
    }
  }

  lemma Square(a: nat, b: nat)
    requires a <= b
    ensures a * a <= b * b
  {
    assert a * a <= a * b <= b * b;
  }

  predicate ZeroOrPow2(s: nat) {
    s == 0 || Arith.IsPow2(s)
  }

  // The root is known down to the bit worth 2 * s: it is at least p, and less
  // than p + 2 * s.
  ghost predicate Between(x: nat, op: nat, res: nat, one: nat, s: nat, p: nat) {
    && ZeroOrPow2(s)
    && one == s * s
    && p * p + op == x
    && p + 2 * s <= 0x1_0000
    && if s == 0 then res == p && x < (p + 1) * (p + 1)
       else res == 2 * (p * s) && x < (p + 2 * s) * (p + 2 * s)
  }

  // The same after the subtraction, before the shifts.
  ghost predicate Halfway(x: nat, op: nat, res: nat, one: nat, s: nat, p: nat) {
    && s > 0
    && ZeroOrPow2(s)
    && one == s * s
    && p * p + op == x
    && p + s <= 0x1_0000
    && res == 2 * (p * s)
    && x < (p + s) * (p + s)
  }

  lemma Expand(p: nat, s: nat)
    ensures (p + s) * (p + s) == p * p + 2 * (p * s) + s * s
    ensures (p + 2 * s) * (p + 2 * s) == p * p + 4 * (p * s) + 4 * (s * s)
    ensures (p + s) * s == p * s + s * s
    ensures p * p >= 0 && p * s >= 0 && (s > 0 ==> s * s > 0)
  {
  }

  lemma Choose(x: nat, op: nat, res: nat, one: nat, s: nat, p: nat)
    requires Between(x, op, res, one, s, p) && s > 0
    ensures op >= res + one ==> Halfway(x, op - (res + one), res + 2 * one, one, s, p + s)
    ensures op < res + one ==> Halfway(x, op, res, one, s, p)
    ensures res + 2 * one <= UINT_MAX
  {
    Expand(p, s);
    Square(p + 2 * s, 0x1_0000);
    if op >= res + one {
      assert (p + s) + s == p + 2 * s;
    }
  }

  lemma Halve(x: nat, op: nat, res: nat, one: nat, s: nat, p: nat)
    requires Halfway(x, op, res, one, s, p)
    ensures Between(x, op, res / 2, one / 4, s / 2, p)
  {
    if s == 1 {
      assert one == 1 && res == 2 * p;
    } else {
      var h := s / 2;
      assert s == 2 * h;
      Fourfold(p, h);
    }
  }

  lemma Fourfold(p: nat, h: nat)
    ensures (2 * h) * (2 * h) == 4 * (h * h)
    ensures p * (2 * h) == 2 * (p * h)
  {
  }

  // While `one` is brought down below x.
  ghost predicate Starting(x: nat, one: nat, s: nat) {
    && ZeroOrPow2(s)
    && one == s * s
    && s <= 0x8000
    && if s > 0 then x < 4 * one else x == 0
  }

  lemma Top(x: nat)
    requires x <= UINT_MAX
    ensures Starting(x, 0x4000_0000, 0x8000)
  {
    assert Arith.IsPow2(8);
    assert Arith.IsPow2(0x80);
    assert Arith.IsPow2(0x800);
  }

  lemma Shrink(x: nat, one: nat, s: nat)
    requires Starting(x, one, s) && x < one
    ensures Starting(x, one / 4, s / 2)
  {
    if s > 1 {
      assert s == 2 * (s / 2);
      Fourfold(0, s / 2);
    } else {
      assert one == s;
    }
  }

  lemma Started(x: nat, one: nat, s: nat)
    requires Starting(x, one, s)
    ensures Between(x, x, 0, one, s, 0)
  {
    Expand(0, s);
  }

  lemma NotDone(x: nat, op: nat, res: nat, one: nat, s: nat, p: nat)
    requires Between(x, op, res, one, s, p)
    ensures one != 0 ==> s > 0
    ensures one == 0 ==> IsRoot(res, x)
  {
    Expand(0, s);
  }

  method Isqrt(x: nat) returns (r: nat)
    requires x <= UINT_MAX
    ensures IsRoot(r, x)
  {
    hide Starting, Between, Halfway, IsRoot;
    var op: nat, res: nat, one: nat := x, 0, 0x4000_0000;
    ghost var s: nat, p: nat := 0x8000, 0;
    Top(x);
    while one > op
      invariant op == x && Starting(x, one, s)
    {
      Shrink(x, one, s);
      one := one / 4;
      s := s / 2;
    }
    Started(x, one, s);

    while one != 0
      invariant Between(x, op, res, one, s, p)
    {
      NotDone(x, op, res, one, s, p);
      Choose(x, op, res, one, s, p);
      if op >= res + one {
        op := op - (res + one);
        res := res + 2 * one;
        p := p + s;
      }
      Halve(x, op, res, one, s, p);
      res := res / 2;
      one := one / 4;
      s := s / 2;
    }
    NotDone(x, op, res, one, s, p);
    r := res;
  }
}
