/**
 The field of 32 elements behind the account addresses.

 Elements are the integers 0..31 that the program keeps in its digit arrays;
 addition is the bitwise exclusive or, multiplication the lookup in the two
 tables of powers and logarithms. The tables are shown to be those of
 GF(2)[x]/(x^5+x^2+1), and the field laws follow.
 */
module Bits {

  /** Bitwise exclusive or of two non-negative integers. */
  function Xor(x: nat, y: nat): nat
    decreases x + y
  {
    if x == 0 && y == 0 then 0 else 2 * Xor(x / 2, y / 2) + (if x % 2 == y % 2 then 0 else 1)
  }

  /** Bitwise or of two non-negative integers. */
  function Or(x: nat, y: nat): nat
    decreases x + y
  {
    if x == 0 && y == 0 then 0 else 2 * Or(x / 2, y / 2) + (if x % 2 == 1 || y % 2 == 1 then 1 else 0)
  }

  lemma OrIsZero(x: nat, y: nat)
    ensures Or(x, y) == 0 <==> x == 0 && y == 0
    decreases x + y
  {
    if x == 0 && y == 0 {
    } else {
      OrIsZero(x / 2, y / 2);
    }
  }

  lemma XorComm(x: nat, y: nat)
    ensures Xor(x, y) == Xor(y, x)
    decreases x + y
  {
    if x == 0 && y == 0 {
    } else {
      XorComm(x / 2, y / 2);
    }
  }

  lemma XorZero(x: nat)
    ensures Xor(x, 0) == x && Xor(0, x) == x
  {
    if x == 0 {
    } else {
      XorZero(x / 2);
    }
  }

  lemma {:induction false} XorAssoc(x: nat, y: nat, z: nat)
    ensures Xor(Xor(x, y), z) == Xor(x, Xor(y, z))
    decreases x + y + z
  {
    if x == 0 && y == 0 && z == 0 {
    } else {
      var l, r := Xor(Xor(x, y), z), Xor(x, Xor(y, z));
      assert l / 2 == r / 2 by {
        XorHalf(Xor(x, y), z);
        XorHalf(x, y);
        XorHalf(x, Xor(y, z));
        XorHalf(y, z);
        XorAssoc(x / 2, y / 2, z / 2);
      }
      assert l % 2 == r % 2 by {
        XorParity(x, y);
        XorParity(y, z);
        XorParity(Xor(x, y), z);
        XorParity(x, Xor(y, z));
      }
    }
  }

  lemma {:induction false} XorParity(x: nat, y: nat)
    ensures Xor(x, y) % 2 == if x % 2 == y % 2 then 0 else 1
  {
  }

  lemma {:induction false} XorHalf(x: nat, y: nat)
    ensures Xor(x, y) / 2 == Xor(x / 2, y / 2)
  {
  }

  lemma {:induction false} XorQuarter(x: nat, y: nat)
    ensures Xor(x, y) / 4 == Xor(x / 4, y / 4)
  {
    XorHalf(x, y);
    XorHalf(x / 2, y / 2);
    assert x / 2 / 2 == x / 4 && y / 2 / 2 == y / 4;
  }

  lemma XorSelf(x: nat)
    ensures Xor(x, x) == 0
  {
    if x == 0 {
    } else {
      XorSelf(x / 2);
    }
  }

  lemma XorIsZero(x: nat, y: nat)
    ensures Xor(x, y) == 0 <==> x == y
    decreases x + y
  {
    if x == 0 && y == 0 {
    } else {
      XorIsZero(x / 2, y / 2);
    }
  }

  lemma XorDouble(x: nat, y: nat)
    ensures Xor(2 * x, 2 * y) == 2 * Xor(x, y)
  {
  }

  /** Exclusive or of two five-bit numbers, bit by bit. */
  lemma {:induction false} XorFive(a4: nat, a3: nat, a2: nat, a1: nat, a0: nat,
                                   b4: nat, b3: nat, b2: nat, b1: nat, b0: nat)
    requires a4 < 2 && a3 < 2 && a2 < 2 && a1 < 2 && a0 < 2
    requires b4 < 2 && b3 < 2 && b2 < 2 && b1 < 2 && b0 < 2
    ensures Xor(16 * a4 + 8 * a3 + 4 * a2 + 2 * a1 + a0, 16 * b4 + 8 * b3 + 4 * b2 + 2 * b1 + b0)
            == 16 * Flip(a4, b4) + 8 * Flip(a3, b3) + 4 * Flip(a2, b2) + 2 * Flip(a1, b1) + Flip(a0, b0)
  {
    hide Xor;
    XorBit(8 * a4 + 4 * a3 + 2 * a2 + a1, a0, 8 * b4 + 4 * b3 + 2 * b2 + b1, b0);
    XorBit(4 * a4 + 2 * a3 + a2, a1, 4 * b4 + 2 * b3 + b2, b1);
    XorBit(2 * a4 + a3, a2, 2 * b4 + b3, b2);
    XorBit(a4, a3, b4, b3);
    XorBit(0, a4, 0, b4);
    XorZero(0);
  }

  function Flip(p: nat, q: nat): nat {
    if p == q then 0 else 1
  }

  lemma {:induction false} XorBit(x: nat, p: nat, y: nat, q: nat)
    requires p < 2 && q < 2
    ensures Xor(2 * x + p, 2 * y + q) == 2 * Xor(x, y) + (if p == q then 0 else 1)
  {
  }

  /** Exclusive or against a number given by its three low bits q2 q1 q0. */
  lemma {:induction false} XorLowBits(x: nat, y: nat, q2: nat, q1: nat, q0: nat)
    requires q0 < 2 && q1 < 2 && q2 < 2
    ensures Xor(2 * x, 8 * y + 4 * q2 + 2 * q1 + q0)
            == 8 * Xor(x / 4, y) + (if x / 2 % 2 == q2 then 0 else 4) + (if x % 2 == q1 then 0 else 2) + q0
  {
    hide Xor;
    XorBit(x, 0, 4 * y + 2 * q2 + q1, q0);
    XorBit(x / 2, x % 2, 2 * y + q2, q1);
    XorBit(x / 4, x / 2 % 2, y, q2);
    assert x == 2 * (x / 2) + x % 2;
    assert x / 2 == 2 * (x / 4) + x / 2 % 2;
  }

  lemma XorDisjoint(k: nat, y: nat)
    requires y < Pow2(k)
    ensures Xor(Pow2(k), y) == Pow2(k) + y
  {
    if k == 0 {
    } else {
      XorDisjoint(k - 1, y / 2);
    }
  }

  /** The five low bits of two symbols stay five bits. */
  lemma XorBound(x: nat, y: nat, k: nat)
    requires x < Pow2(k) && y < Pow2(k)
    ensures Xor(x, y) < Pow2(k)
  {
    if k == 0 {
    } else {
      XorBound(x / 2, y / 2, k - 1);
    }
  }

  function Pow2(k: nat): nat {
    if k == 0 then 1 else 2 * Pow2(k - 1)
  }

  /** (a + b) + (c + d) == (a + c) + (b + d) for exclusive or. */
  lemma XorSwap(a: nat, b: nat, c: nat, d: nat)
    ensures Xor(Xor(a, b), Xor(c, d)) == Xor(Xor(a, c), Xor(b, d))
  {
    XorAssoc(a, b, Xor(c, d));
    XorAssoc(b, c, d);
    XorComm(b, c);
    XorAssoc(c, b, d);
    XorAssoc(a, c, Xor(b, d));
  }
}

module Gf32 {
  import opened Bits

  type Sym = x: nat | x < 32

  const GEXP: seq<Sym> := [1, 2, 4, 8, 16, 5, 10, 20, 13, 26, 17, 7, 14, 28, 29, 31,
                           27, 19, 3, 6, 12, 24, 21, 15, 30, 25, 23, 11, 22, 9, 18, 1]
  const GOLG: seq<nat> := [0, 0, 1, 18, 2, 5, 19, 11, 3, 29, 6, 27, 20, 8, 12, 23, 4, 10, 30, 17,
                           7, 22, 28, 26, 21, 25, 9, 16, 13, 14, 24, 15]

  /** Addition of the field: exclusive or of two symbols. */
  function Add(x: Sym, y: Sym): Sym {
    XorBound(x, y, 5);
    assert Pow2(5) == 32;
    Xor(x, y)
  }

  /** Multiplication by table lookup. */
  function Gmult(x: Sym, y: Sym): Sym {
    if x == 0 || y == 0 then 0 else GEXP[(GOLG[x] + GOLG[y]) % 31]
  }

  // ----- the additive group

  lemma AddLaws(x: Sym, y: Sym, z: Sym)
    ensures Add(x, y) == Add(y, x)
    ensures Add(Add(x, y), z) == Add(x, Add(y, z))
    ensures Add(x, 0) == x && Add(0, x) == x && Add(x, x) == 0
    ensures Add(x, y) == 0 <==> x == y
  {
    XorComm(x, y);
    XorAssoc(x, y, z);
    XorZero(x);
    XorSelf(x);
    XorIsZero(x, y);
  }

  lemma AddSwap(a: Sym, b: Sym, c: Sym, d: Sym)
    ensures Add(Add(a, b), Add(c, d)) == Add(Add(a, c), Add(b, d))
  {
    XorSwap(a, b, c, d);
  }

  // ----- multiplication by x modulo x^5+x^2+1

  /** Multiplication by x: shift left, then subtract x^5+x^2+1 if bit 5 is set. */
  function Shift(x: Sym): Sym {
    if x < 16 then 2 * x else Add(2 * x - 32, 5)
  }

  function Red(x: Sym): nat {
    if x >= 16 then 37 else 0
  }

  lemma ShiftIsXor(x: Sym)
    ensures Shift(x) == Xor(2 * x, Red(x))
  {
    if x < 16 {
      XorZero(2 * x);
    } else {
      var e: nat := 2 * x - 32;
      assert Pow2(5) == 32;
      XorDisjoint(5, e);
      XorDisjoint(5, 5);
      XorSwap(32, e, 32, 5);
      XorSelf(32);
      XorZero(Xor(e, 5));
    }
  }

  /** Shift without exclusive or: subtracting 32 + 4 + 1 or 32 - 4 + 1 is adding -3 or 5 to 2x - 32. */
  function ShiftValue(x: Sym): int {
    if x < 16 then 2 * x else 2 * x - 32 + (if x / 2 % 2 == 1 then -3 else 5)
  }

  lemma {:induction false} ShiftHasValue(x: Sym)
    ensures Shift(x) == ShiftValue(x)
  {
    hide Bits.Xor;
    if 16 <= x {
      XorLowBits(x - 16, 0, 1, 0, 1);
      XorZero((x - 16) / 4);
      assert (x - 16) / 2 % 2 == x / 2 % 2;
      assert (x - 16) / 4 == x / 4 - 4;
    }
  }

  lemma ShiftLinear(x: Sym, y: Sym)
    ensures Shift(Add(x, y)) == Add(Shift(x), Shift(y))
  {
    ShiftIsXor(x);
    ShiftIsXor(y);
    ShiftIsXor(Add(x, y));
    XorDouble(x, y);
    XorSwap(2 * x, Red(x), 2 * y, Red(y));
    RedLinear(x, y);
  }

  lemma XorTopBit(x: Sym, y: Sym)
    ensures Xor(x, y) / 16 == Xor(x / 16, y / 16)
  {
    XorQuarter(x, y);
    XorQuarter(x / 4, y / 4);
  }

  lemma RedLinear(x: Sym, y: Sym)
    ensures Xor(Red(x), Red(y)) == Red(Add(x, y))
  {
    XorTopBit(x, y);
    XorSelf(1);
    XorZero(1);
    XorZero(37);
    XorSelf(37);
  }

  /** Multiplication by x^n. */
  function ShiftBy(n: nat, x: Sym): Sym {
    if n == 0 then x else Shift(ShiftBy(n - 1, x))
  }

  lemma {:induction false} ShiftByLinear(n: nat, x: Sym, y: Sym)
    ensures ShiftBy(n, Add(x, y)) == Add(ShiftBy(n, x), ShiftBy(n, y))
  {
    if n == 0 {
    } else {
      ShiftByLinear(n - 1, x, y);
      ShiftLinear(ShiftBy(n - 1, x), ShiftBy(n - 1, y));
    }
  }

  lemma {:induction false} ShiftByZero(n: nat)
    ensures ShiftBy(n, 0) == 0
  {
    if n == 0 {
    } else {
      ShiftByZero(n - 1);
    }
  }

  // ----- the tables

  /** The power table lists x^0, x^1, ..., x^31 = 1 of the field. */
  lemma {:induction false} GexpStep(i: nat)
    requires i < 31
    ensures GEXP[i + 1] == Shift(GEXP[i])
  {
    ShiftHasValue(GEXP[i]);
    GexpStepValue(i);
  }

  lemma GexpWraps()
    ensures GEXP[31] == GEXP[0] == 1
  {
  }

  lemma {:induction false} GexpStepValue(i: nat)
    requires i < 31
    ensures GEXP[i + 1] == ShiftValue(GEXP[i])
  {
  }

  lemma TableSizes()
    ensures |GEXP| == 32 && |GOLG| == 32
  {
  }

  /** The logarithm table inverts the power table. */
  lemma ExpOfLog(x: Sym)
    requires x != 0
    ensures GOLG[x] < 31 && GEXP[GOLG[x]] == x
  {
  }

  lemma LogOfExp(i: nat)
    requires i < 31
    ensures GEXP[i] != 0 && GOLG[GEXP[i]] == i
  {
  }

  // ----- table multiplication is multiplication in the field

  lemma {:induction false} NextExponent(n: nat)
    requires 0 < n
    ensures GEXP[n % 31] == Shift(GEXP[(n - 1) % 31])
  {
    hide GEXP, Shift;
    var k := (n - 1) % 31;
    GexpStep(k);
    GexpWraps();
    assert n % 31 == if k == 30 then 0 else k + 1;
  }

  lemma ModUnique(v: int, q: int, r: nat)
    requires v == 31 * q + r && r < 31
    ensures v % 31 == r
  {
  }

  lemma AddMod(a: nat, b: nat, c: nat)
    ensures ((a + b) % 31 + c) % 31 == (a + (b + c) % 31) % 31
    ensures (a % 31 + b) % 31 == (a + b) % 31
  {
    var d, e := (a + b) / 31, (b + c) / 31;
    var q, r := (a + b + c) / 31, (a + b + c) % 31;
    ModUnique((a + b) % 31 + c, q - d, r);
    ModUnique(a + (b + c) % 31, q - e, r);
    ModUnique(a % 31 + b, d - a / 31, (a + b) % 31);
  }

  lemma {:induction false} ShiftByGexp(n: nat, j: nat)
    requires j < 31
    ensures ShiftBy(n, GEXP[j]) == GEXP[(n + j) % 31]
  {
    hide GEXP, GOLG, Shift;
    TableSizes();
    if n == 0 {
    } else {
      ShiftByGexp(n - 1, j);
      NextExponent(n + j);
    }
  }

  /** The table product by x is x^log(x) applied to the other factor. */
  lemma {:induction false} GmultIsShift(x: Sym, y: Sym)
    requires x != 0
    ensures Gmult(x, y) == ShiftBy(GOLG[x], y)
  {
    hide GEXP, GOLG, ShiftBy;
    TableSizes();
    ExpOfLog(x);
    if y == 0 {
      ShiftByZero(GOLG[x]);
    } else {
      ExpOfLog(y);
      ShiftByGexp(GOLG[x], GOLG[y]);
    }
  }

  lemma GmultComm(x: Sym, y: Sym)
    ensures Gmult(x, y) == Gmult(y, x)
  {
  }

  lemma {:induction false} GmultAdd(x: Sym, y: Sym, z: Sym)
    ensures Gmult(x, Add(y, z)) == Add(Gmult(x, y), Gmult(x, z))
    ensures Gmult(Add(y, z), x) == Add(Gmult(y, x), Gmult(z, x))
  {
    if x == 0 {
      XorZero(0);
    } else {
      GmultIsShift(x, y);
      GmultIsShift(x, z);
      GmultIsShift(x, Add(y, z));
      ShiftByLinear(GOLG[x], y, z);
    }
    GmultComm(x, y);
    GmultComm(x, z);
    GmultComm(x, Add(y, z));
  }

  lemma {:induction false} GmultLog(x: Sym, y: Sym)
    requires x != 0 && y != 0
    ensures Gmult(x, y) != 0 && GOLG[Gmult(x, y)] == (GOLG[x] + GOLG[y]) % 31
  {
    LogOfExp((GOLG[x] + GOLG[y]) % 31);
  }

  lemma {:induction false} GmultAssoc(x: Sym, y: Sym, z: Sym)
    ensures Gmult(Gmult(x, y), z) == Gmult(x, Gmult(y, z))
  {
    hide GEXP, GOLG;
    TableSizes();
    if x != 0 && y != 0 && z != 0 {
      GmultLog(x, y);
      GmultLog(y, z);
      ExpOfLog(x);
      ExpOfLog(y);
      ExpOfLog(z);
      AddMod(GOLG[x], GOLG[y], GOLG[z]);
    }
  }

  lemma {:induction false} GmultOne(x: Sym)
    ensures Gmult(1, x) == x && Gmult(x, 1) == x
  {
    hide GEXP, GOLG;
    TableSizes();
    LogOfExp(0);
    GexpWraps();
    if x == 0 {
    } else {
      ExpOfLog(x);
    }
  }

  // ----- the field itself, without the tables

  /** Product of two polynomials over GF(2), reduced modulo x^5+x^2+1. */
  function Mul(x: Sym, y: Sym): Sym {
    if x == 0 then 0 else Add(if x % 2 == 1 then y else 0, Shift(Mul(x / 2, y)))
  }

  /** The powers of the generator a = 2, that is of the polynomial x. */
  function Power(n: nat): Sym {
    if n == 0 then 1 else Shift(Power(n - 1))
  }

  /** The program's table product is the product of the field. */
  lemma {:induction false} GmultIsMul(x: Sym, y: Sym)
    ensures Gmult(x, y) == Mul(x, y)
  {
    hide GEXP, GOLG;
    if x == 0 {
    } else {
      var h := x / 2;
      GmultIsMul(h, y);
      ShiftIsGmult(h);
      ShiftIsGmult(Gmult(h, y));
      GmultAssoc(2, h, y);
      GmultAdd(y, x % 2, Shift(h));
      GmultOne(y);
      assert Add(x % 2, Shift(h)) == x by {
        XorBit(0, x % 2, h, 0);
        XorZero(h);
      }
    }
  }

  lemma {:induction false} ShiftIsGmult(x: Sym)
    ensures Shift(x) == Gmult(2, x)
  {
    GmultIsShift(2, x);
    assert ShiftBy(1, x) == Shift(ShiftBy(0, x));
  }

  /** The program's table of powers holds the powers of a, and they repeat after 31. */
  lemma {:induction false} GexpIsPower(n: nat)
    ensures GEXP[n % 31] == Power(n)
  {
    if n == 0 {
    } else {
      GexpIsPower(n - 1);
      NextExponent(n);
    }
  }

  /** Commutative ring laws of the product. */
  lemma {:induction false} MulLaws(x: Sym, y: Sym, z: Sym)
    ensures Mul(x, y) == Mul(y, x)
    ensures Mul(Mul(x, y), z) == Mul(x, Mul(y, z))
    ensures Mul(x, Add(y, z)) == Add(Mul(x, y), Mul(x, z))
    ensures Mul(Add(y, z), x) == Add(Mul(y, x), Mul(z, x))
  {
    hide *;
    GmultIsMul(x, y);
    GmultIsMul(y, x);
    GmultIsMul(y, z);
    GmultIsMul(x, z);
    GmultIsMul(z, x);
    GmultIsMul(Mul(x, y), z);
    GmultIsMul(x, Mul(y, z));
    GmultIsMul(x, Add(y, z));
    GmultIsMul(Add(y, z), x);
    GmultComm(x, y);
    GmultAssoc(x, y, z);
    GmultAdd(x, y, z);
  }

  /** One, zero, and no divisors of zero. */
  lemma {:induction false} MulUnits(x: Sym, y: Sym)
    ensures Mul(1, x) == x && Mul(x, 1) == x && Mul(0, x) == 0 && Mul(x, 0) == 0
    ensures Mul(x, y) == 0 <==> x == 0 || y == 0
  {
    hide GEXP, GOLG;
    GmultIsMul(1, x);
    GmultIsMul(x, 1);
    GmultIsMul(x, 0);
    GmultIsMul(x, y);
    GmultOne(x);
    if x != 0 && y != 0 {
      GmultLog(x, y);
    }
  }

  lemma {:induction false} PowerAdd(m: nat, n: nat)
    ensures Mul(Power(m), Power(n)) == Power(m + n) && Power(m) != 0
  {
    hide GEXP, GOLG, Mul, Power, Add;
    LogOfExp(m % 31);
    LogOfExp(n % 31);
    GexpIsPower(m);
    GexpIsPower(n);
    GexpIsPower(m + n);
    GmultIsMul(Power(m), Power(n));
    AddMod(m, n, 0);
    AddMod(n % 31, m, 0);
  }

  /** a has order 31: powers agree exactly when the exponents agree modulo 31. */
  lemma {:induction false} PowerOrder(m: nat, n: nat)
    ensures Power(m) == Power(n) <==> m % 31 == n % 31
  {
    hide GEXP, GOLG;
    LogOfExp(m % 31);
    LogOfExp(n % 31);
    GexpIsPower(m);
    GexpIsPower(n);
  }
}
