/**
  Machine-word bit operations on naturals.

  The operators are defined bit by bit, so that the models can use the expressions of the
  code (`addr & ~0xFFF`, `page | bits`, `slot ^ size`) as they stand.  The lemmas give the
  arithmetic reading of each expression.
 */
module Bits {

  function Pow2(k: nat): (p: nat)
    ensures p > 0
  {
    if k == 0 then 1 else 2 * Pow2(k - 1)
  }

  function And(a: nat, b: nat): nat
    decreases a
  {
    if a == 0 || b == 0 then 0
    else 2 * And(a / 2, b / 2) + (if a % 2 == 1 && b % 2 == 1 then 1 else 0)
  }

  function Or(a: nat, b: nat): nat
    decreases a + b
  {
    if a == 0 && b == 0 then 0
    else 2 * Or(a / 2, b / 2) + (if a % 2 == 1 || b % 2 == 1 then 1 else 0)
  }

  function Xor(a: nat, b: nat): nat
    decreases a + b
  {
    if a == 0 && b == 0 then 0
    else 2 * Xor(a / 2, b / 2) + (if a % 2 != b % 2 then 1 else 0)
  }

  lemma {:induction false} DivModUnique(a: nat, m: nat, q: int, r: int)
    requires m > 0 && a == q * m + r && 0 <= r < m
    ensures a / m == q && a % m == r
  {
    var d := q - a / m;
    assert d * m == a % m - r;
    if d >= 1 {
      MulAtLeast(d, m);
    } else if d <= -1 {
      MulAtLeast(-d, m);
    }
  }

  lemma {:induction false} MulAtLeast(x: int, m: nat)
    requires x >= 1
    ensures x * m >= m
  {
  }

  /** Halving a number halves its remainder and keeps its quotient by an even divisor. */
  lemma {:induction false} HalveDivMod(a: nat, m: nat)
    requires m > 0
    ensures a % (2 * m) == 2 * ((a / 2) % m) + a % 2
    ensures a / (2 * m) == (a / 2) / m
  {
    var q, r := (a / 2) / m, (a / 2) % m;
    assert a / 2 == q * m + r;
    assert a == q * (2 * m) + (2 * r + a % 2);
    DivModUnique(a, 2 * m, q, 2 * r + a % 2);
  }

  /** The low k bits of a number. */
  function Low(a: nat, k: nat): nat {
    if k == 0 then 0 else 2 * Low(a / 2, k - 1) + a % 2
  }

  lemma {:induction false} LowIsRemainder(a: nat, k: nat)
    ensures Low(a, k) == a % Pow2(k)
  {
    if k != 0 {
      LowIsRemainder(a / 2, k - 1);
      HalveDivMod(a, Pow2(k - 1));
    }
  }

  lemma {:induction false} AndOdd(a: nat, m: nat)
    ensures And(a, 2 * m + 1) == 2 * And(a / 2, m) + a % 2
  {
    assert (2 * m + 1) / 2 == m && (2 * m + 1) % 2 == 1;
  }

  lemma {:induction false} AndEven(a: nat, m: nat)
    ensures And(a, 2 * m) == 2 * And(a / 2, m)
  {
    assert (2 * m) / 2 == m && (2 * m) % 2 == 0;
  }

  lemma {:induction false} AndLow(a: nat, k: nat)
    ensures And(a, Pow2(k) - 1) == Low(a, k)
  {
    if k != 0 {
      AndLow(a / 2, k - 1);
      AndOdd(a, Pow2(k - 1) - 1);
    }
  }

  lemma {:induction false} AndField(a: nat, k: nat, n: nat)
    requires k <= n
    ensures Pow2(k) <= Pow2(n) && And(a, Pow2(n) - Pow2(k)) == Low(a, n) - Low(a, k)
  {
    if k == 0 {
      AndLow(a, n);
    } else {
      AndField(a / 2, k - 1, n - 1);
      AndEven(a, Pow2(n - 1) - Pow2(k - 1));
    }
  }

  lemma {:induction false} AndLowMask(a: nat, k: nat)
    ensures And(a, Pow2(k) - 1) == a % Pow2(k)
  {
    AndLow(a, k);
    LowIsRemainder(a, k);
  }

  /** Masking with bits k to n-1 takes that field of the word in place. */
  lemma {:induction false} AndFieldMask(a: nat, k: nat, n: nat)
    requires k <= n
    ensures Pow2(k) <= Pow2(n)
    ensures And(a, Pow2(n) - Pow2(k)) == a % Pow2(n) - a % Pow2(k)
  {
    AndField(a, k, n);
    LowIsRemainder(a, k);
    LowIsRemainder(a, n);
  }

  /** Dividing by a product is dividing twice. */
  lemma {:induction false} DivModProduct(a: nat, b: nat, c: nat)
    requires b > 0 && c > 0
    ensures b * c > 0
    ensures a % (b * c) == a % b + b * ((a / b) % c)
    ensures a / (b * c) == (a / b) / c
  {
    var q, r := (a / b) / c, (a / b) % c;
    assert a / b == q * c + r;
    assert a == (q * c + r) * b + a % b;
    assert (q * c + r) * b == q * (b * c) + b * r;
    assert b * r <= b * (c - 1) by { MulOrder(b, r, c - 1); }
    assert b * (c - 1) == b * c - b;
    DivModUnique(a, b * c, q, b * r + a % b);
  }

  lemma {:induction false} MulOrder(b: nat, x: int, y: int)
    requires x <= y
    ensures b * x <= b * y
  {
  }

  function ShiftRight(a: nat, k: nat): nat {
    if k == 0 then a else ShiftRight(a / 2, k - 1)
  }

  lemma {:induction false} ShiftRightDivides(a: nat, k: nat)
    ensures ShiftRight(a, k) == a / Pow2(k)
  {
    if k != 0 {
      ShiftRightDivides(a / 2, k - 1);
      DivModProduct(a, 2, Pow2(k - 1));
    }
  }

  lemma {:induction false} SmallMod(a: nat, m: nat)
    requires a < m
    ensures a % m == a
  {
    DivModUnique(a, m, 0, a);
  }

  lemma {:induction false} OrZero(b: nat)
    ensures Or(0, b) == b
  {
    if b != 0 { OrZero(b / 2); }
  }

  /** Joining an aligned word with low bits adds them. */
  lemma {:induction false} OrAligned(a: nat, b: nat, k: nat)
    requires a % Pow2(k) == 0 && b < Pow2(k)
    ensures Or(a, b) == a + b
  {
    if k == 0 {
      if a != 0 {
        OrAligned(a / 2, 0, 0);
      }
    } else {
      HalveDivMod(a, Pow2(k - 1));
      OrAligned(a / 2, b / 2, k - 1);
    }
  }

  lemma {:induction false} XorZero(a: nat)
    ensures Xor(a, 0) == a
  {
    if a != 0 { XorZero(a / 2); }
  }

  lemma {:induction false} XorEven(a: nat, m: nat)
    ensures Xor(a, 2 * m) == 2 * Xor(a / 2, m) + a % 2
  {
    assert (2 * m) / 2 == m && (2 * m) % 2 == 0;
  }

  /** Flipping bit k adds or subtracts 2^k. */
  lemma {:induction false} XorPow2(a: nat, k: nat)
    ensures Xor(a, Pow2(k)) == if (a / Pow2(k)) % 2 == 0 then a + Pow2(k) else a - Pow2(k)
  {
    if k == 0 {
      XorZero(a / 2);
      assert Pow2(0) / 2 == 0;
    } else {
      var p := Pow2(k - 1);
      XorPow2(a / 2, k - 1);
      XorEven(a, p);
      HalveDivMod(a, p);
    }
  }
}
