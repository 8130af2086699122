/** `ALIGN_UP` as the bit operation it is, and what it computes. */
module Rounding {
  import opened Basics

  /** `a & ~b` */
  function AndNot(a: nat, b: nat): nat {
    if a == 0 then 0
    else 2 * AndNot(a / 2, b / 2) + (if a % 2 == 1 && b % 2 == 0 then 1 else 0)
  }

  /** `ALIGN_UP`, as the bit operation it is; the size need not be a power of two. */
  function AlignUp(a: nat, size: nat): nat
    requires size > 0
  {
    AndNot(a + (size - 1), size - 1)
  }

  /** `ALIGN_DOWN_TO_PAGE` */
  function AlignDownToPage(a: nat): nat { a - a % PAGE }

  /** `ALIGN_UP_TO_PAGE` */
  function AlignUpToPage(a: nat): nat { AlignDownToPage(a + (PAGE - 1)) }

  /** For pages the bit operations are what one expects. */
  lemma PageMasks(a: nat)
    ensures AndNot(a, PAGE - 1) == AlignDownToPage(a) && AlignUp(a, PAGE) == AlignUpToPage(a)
  {
    hide AndNot;
    assert Pow2(12) == PAGE by {
      assert Pow2(4) == 16;
      assert Pow2(8) == 256;
    }
    AndNotMask(a, 12);
    AndNotMask(a + (PAGE - 1), 12);
  }

  /** The lowest bit that is set. */
  function LowBit(n: nat): nat
    requires n > 0
  {
    if n % 2 == 1 then 1 else 2 * LowBit(n / 2)
  }

  lemma {:induction false} AndNotSelf(a: nat)
    ensures AndNot(a, a) == 0
  {
    if a > 0 { AndNotSelf(a / 2); }
  }

  lemma {:induction false} AndNotPrevious(n: nat)
    requires n > 0
    ensures AndNot(n, n - 1) == LowBit(n) && 1 <= LowBit(n) <= n
  {
    if n % 2 == 1 {
      assert (n - 1) / 2 == n / 2;
      AndNotSelf(n / 2);
    } else {
      assert (n - 1) / 2 == n / 2 - 1;
      AndNotPrevious(n / 2);
    }
  }

  /** Equal low bits vanish. */
  lemma AndNotHigh(a: nat, b: nat, r: nat)
    requires r < 8
    ensures AndNot(8 * a + r, 8 * b + r) == 8 * AndNot(a, b)
  {
    assert (8 * a + r) / 2 == 4 * a + r / 2 && (8 * b + r) / 2 == 4 * b + r / 2;
    assert (4 * a + r / 2) / 2 == 2 * a + r / 4 && (4 * b + r / 2) / 2 == 2 * b + r / 4;
    assert (2 * a + r / 4) / 2 == a && (2 * b + r / 4) / 2 == b;
    assert AndNot(2 * a + r / 4, 2 * b + r / 4) == 2 * AndNot(a, b);
    assert AndNot(4 * a + r / 2, 4 * b + r / 2) == 2 * AndNot(2 * a + r / 4, 2 * b + r / 4);
  }

  function Pow2(n: nat): nat { if n == 0 then 1 else 2 * Pow2(n - 1) }

  lemma {:induction false} AndNotMask(a: nat, n: nat)
    ensures Pow2(n) > 0 && AndNot(a, Pow2(n) - 1) == a / Pow2(n) * Pow2(n)
    decreases n
  {
    if n == 0 {
      AndNotZero(a);
    } else {
      AndNotMask(a / 2, n - 1);
      MaskStep(a, Pow2(n - 1));
    }
  }

  lemma MaskStep(a: nat, half: nat)
    requires half > 0 && AndNot(a / 2, half - 1) == a / 2 / half * half
    ensures AndNot(a, 2 * half - 1) == a / (2 * half) * (2 * half)
  {
    hide AndNot;
    OddMask(a, half - 1);
    HalfThenDivide(a, half);
    Reassociate(a / 2 / half, half);
  }

  lemma OddMask(a: nat, b: nat)
    ensures AndNot(a, 2 * b + 1) == 2 * AndNot(a / 2, b)
  {
  }

  lemma Reassociate(q: nat, h: nat)
    ensures 2 * (q * h) == q * (2 * h)
  {
  }

  lemma {:induction false} AndNotZero(a: nat)
    ensures AndNot(a, 0) == a
  {
    if a > 0 { AndNotZero(a / 2); }
  }

  lemma HalfThenDivide(a: nat, h: nat)
    requires h > 0
    ensures a / (2 * h) == a / 2 / h
  {
    var q := a / 2 / h;
    var r := a / 2 % h;
    assert a / 2 == q * h + r;
    assert a == q * (2 * h) + (2 * r + a % 2);
    Quotient(a, 2 * h, q, 2 * r + a % 2);
  }

  lemma Distribute(x: int, y: int, d: int)
    ensures (x - y) * d == x * d - y * d
  {
  }

  lemma AtLeastOnce(k: int, d: nat)
    requires k >= 1
    ensures k * d >= d
  {
  }

  lemma Quotient(a: nat, d: nat, q: nat, r: nat)
    requires d > 0 && r < d && a == q * d + r
    ensures a / d == q && a % d == r
  {
    var k := a / d - q;
    assert k * d == r - a % d by { Distribute(a / d, q, d); }
    if k >= 1 { AtLeastOnce(k, d); } else if k <= -1 { AtLeastOnce(-k, d); }
  }
}
