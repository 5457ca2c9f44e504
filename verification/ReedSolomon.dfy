/**
 The (17, 13) code over GF(32) used for account addresses: the parity register,
 the syndromes and the distance of the code.

 A word has 13 data symbols at exponents 0..12 and 4 parity symbols at
 exponents 27..30; exponents 13..26 of the full-length code are absent.
 */
module ReedSolomon {
  import opened Commons
  import opened Bits
  import opened Gf32

  type Word = w: seq<Sym> | |w| == 17 witness seq(17, _ => 0)

  /** The exponent of position p: parity position 13 + k has exponent 27 + k. */
  function Exponent(p: nat): nat {
    if p <= 12 then p else p + 14
  }

  /** The first n terms of the i-th syndrome of w. */
  function SyndromeOf(w: Word, i: nat, n: nat): Sym
    requires n <= 17
  {
    if n == 0 then 0
    else Add(SyndromeOf(w, i, n - 1), Mul(w[n - 1], Power(Location(i, n - 1))))
  }

  /** The power of a by which position p enters the i-th syndrome. */
  function Location(i: nat, p: nat): nat {
    i * Exponent(p)
  }

  function Syndrome(w: Word, i: nat): Sym {
    SyndromeOf(w, i, 17)
  }

  /** w evaluates to zero at a, a^2, a^3 and a^4. */
  predicate IsCodeword(w: Word) {
    forall i | 1 <= i <= 4 :: Syndrome(w, i) == 0
  }

  // ----- the syndrome check of the program

  /** Go: isCodewordValid. */
  method IsCodewordValid(codeword: array<Sym>) returns (valid: bool)
    requires codeword.Length == 17
    ensures valid == IsCodeword(codeword[..])
  {
    hide GEXP, GOLG, Mul, Power, Add, Bits.Or;
    TableSizes();
    var sum: nat := 0;
    for i := 1 to 5
      invariant sum == 0 <==> forall k | 1 <= k < i :: Syndrome(codeword[..], k) == 0
    {
      var t: Sym := 0;
      for j := 0 to 31
        invariant t == SyndromeOf(codeword[..], i, Terms(j))
      {
        if j > 12 && j < 27 {
          continue;
        }
        var pos := j;
        if j > 26 {
          pos := pos - 14;
        }
        GmultIsMul(codeword[pos], GEXP[(i * j) % 31]);
        GexpIsPower(i * j);
        t := Add(t, Gmult(codeword[pos], GEXP[(i * j) % 31]));
      }
      assert t == Syndrome(codeword[..], i);
      Bits.OrIsZero(sum, t);
      sum := Bits.Or(sum, t);
    }
    valid := sum == 0;
  }

  /** How many positions have an exponent below j. */
  function Terms(j: nat): (n: nat)
    ensures j <= 31 ==> n <= 17
  {
    if j <= 13 then j else if j <= 27 then 13 else j - 14
  }

  // ----- linearity

  /** Symbol-wise difference (= sum) of two words. */
  function Difference(v: Word, w: Word): (d: Word)
    ensures forall p | 0 <= p < 17 :: d[p] == Add(v[p], w[p])
  {
    seq(17, p requires 0 <= p < 17 => Add(v[p], w[p]))
  }

  lemma {:induction false} SyndromeLinear(v: Word, w: Word, i: nat, n: nat)
    requires n <= 17
    ensures SyndromeOf(Difference(v, w), i, n) == Add(SyndromeOf(v, i, n), SyndromeOf(w, i, n))
  {
    hide Mul, Add, Power;
    if n == 0 {
      AddLaws(0, 0, 0);
    } else {
      var x := Power(i * Exponent(n - 1));
      SyndromeLinear(v, w, i, n - 1);
      MulLaws(x, v[n - 1], w[n - 1]);
      AddSwap(SyndromeOf(v, i, n - 1), SyndromeOf(w, i, n - 1), Mul(v[n - 1], x), Mul(w[n - 1], x));
    }
  }

  // ----- distance: eliminating one position of the support at a time

  /** Multiply each symbol by (its locator + the locator of q): position q becomes zero. */
  function Eliminate(w: Word, q: nat): (r: Word)
    requires q < 17
    ensures forall p | 0 <= p < 17 :: r[p] == Mul(w[p], Add(Power(Exponent(p)), Power(Exponent(q))))
  {
    seq(17, p requires 0 <= p < 17 => Mul(w[p], Add(Power(Exponent(p)), Power(Exponent(q)))))
  }

  ghost function Support(w: Word): set<nat> {
    set p: nat | p < 17 && w[p] != 0
  }

  lemma {:induction false} EliminateSupport(w: Word, q: nat)
    requires q < 17
    ensures Support(Eliminate(w, q)) == Support(w) - {q}
  {
    hide Mul, Add, Power;
    forall p: nat | p < 17
      ensures Eliminate(w, q)[p] != 0 <==> w[p] != 0 && p != q
    {
      var s := Add(Power(Exponent(p)), Power(Exponent(q)));
      AddLaws(Power(Exponent(p)), Power(Exponent(q)), 0);
      if p != q && s == 0 {
        PowerOrder(Exponent(p), Exponent(q));
      }
      MulUnits(w[p], s);
    }
  }

  /** Eliminating q turns the i-th syndrome into S(i+1) + X(q) * S(i). */
  lemma {:induction false} EliminateSyndrome(w: Word, q: nat, i: nat, n: nat)
    requires q < 17 && n <= 17
    ensures SyndromeOf(Eliminate(w, q), i, n)
            == Add(SyndromeOf(w, i + 1, n), Mul(Power(Exponent(q)), SyndromeOf(w, i, n)))
  {
    hide Mul, Add, Power;
    var xq := Power(Exponent(q));
    if n == 0 {
      AddLaws(0, 0, 0);
      MulUnits(xq, 0);
    } else {
      var p := n - 1;
      var e := Exponent(p);
      var y := Power(i * e);
      EliminateSyndrome(w, q, i, p);
      EliminateTerm(w[p], Power(e), xq, y);
      PowerAdd(e, i * e);
      assert e + i * e == (i + 1) * e;
      var s, t := SyndromeOf(w, i + 1, p), SyndromeOf(w, i, p);
      MulLaws(xq, t, Mul(w[p], y));
      AddSwap(s, Mul(xq, t), Mul(w[p], Power((i + 1) * e)), Mul(xq, Mul(w[p], y)));
    }
  }

  /** (c (x + z)) y == c (x y) + z (c y) */
  lemma {:induction false} EliminateTerm(c: Sym, x: Sym, z: Sym, y: Sym)
    ensures Mul(Mul(c, Add(x, z)), y) == Add(Mul(c, Mul(x, y)), Mul(z, Mul(c, y)))
  {
    hide Mul, Add, Power;
    MulLaws(c, Add(x, z), y);
    MulLaws(y, x, z);
    MulLaws(c, Mul(x, y), Mul(z, y));
    MulLaws(c, z, y);
    MulLaws(c, z, 0);
    MulLaws(z, c, y);
  }

  /** A word whose first m syndromes vanish is zero or has more than m nonzero symbols. */
  lemma {:induction false} SmallSupportIsZero(w: Word, m: nat)
    requires forall i | 1 <= i <= m :: Syndrome(w, i) == 0
    requires |Support(w)| <= m
    ensures Support(w) == {}
    decreases m
  {
    hide Mul, Add, Power;
    if q :| q in Support(w) {
      var r := Eliminate(w, q);
      EliminateSupport(w, q);
      forall i | 1 <= i <= m - 1
        ensures Syndrome(r, i) == 0
      {
        EliminateSyndrome(w, q, i, 17);
        AddLaws(0, 0, 0);
        MulUnits(Power(Exponent(q)), 0);
        assert Syndrome(w, i) == 0 && Syndrome(w, i + 1) == 0;
      }
      SmallSupportIsZero(r, m - 1);
      assert Support(w) == {q};
      SingletonSyndrome(w, q, 1, 17);
      assert Syndrome(w, 1) == 0;
      MulUnits(w[q], Power(1 * Exponent(q)));
    }
  }

  lemma {:induction false} SingletonSyndrome(w: Word, q: nat, i: nat, n: nat)
    requires Support(w) == {q} && n <= 17
    ensures Power(i * Exponent(q)) != 0
    ensures SyndromeOf(w, i, n) == if q < n then Mul(w[q], Power(i * Exponent(q))) else 0
  {
    hide Mul, Add, Power;
    assert q in Support(w);
    PowerAdd(i * Exponent(q), 0);
    if n == 0 {
    } else {
      SingletonSyndrome(w, q, i, n - 1);
      assert n - 1 != q ==> n - 1 !in Support(w);
      MulUnits(0, Power(i * Exponent(n - 1)));
      AddLaws(0, 0, 0);
      AddLaws(Mul(w[q], Power(i * Exponent(q))), 0, 0);
    }
  }

  /** The positions at which two words differ. */
  ghost function Differing(v: Word, w: Word): set<nat> {
    set p: nat | p < 17 && v[p] != w[p]
  }

  /** Minimum distance: distinct codewords differ in at least five positions. */
  lemma {:induction false} MinimumDistance(v: Word, w: Word)
    requires IsCodeword(v) && IsCodeword(w) && v != w
    ensures |Differing(v, w)| >= 5
  {
    hide Mul, Add, Power;
    var d := Difference(v, w);
    assert Support(d) == Differing(v, w) by {
      forall p: nat | p < 17
        ensures d[p] != 0 <==> v[p] != w[p]
      {
        AddLaws(v[p], w[p], 0);
      }
    }
    forall i | 1 <= i <= 4
      ensures Syndrome(d, i) == 0
    {
      SyndromeLinear(v, w, i, 17);
      AddLaws(0, 0, 0);
      assert Syndrome(v, i) == 0 && Syndrome(w, i) == 0;
    }
    var q :| 0 <= q < 17 && v[q] != w[q];
    assert q in Support(d);
    if |Support(d)| <= 4 {
      SmallSupportIsZero(d, 4);
      assert false;
    }
  }

  /** The 13 data symbols of a codeword determine its 4 parity symbols. */
  lemma {:induction false} DataDeterminesCodeword(v: Word, w: Word)
    requires IsCodeword(v) && IsCodeword(w) && v[..13] == w[..13]
    ensures v == w
  {
    hide Mul, Add, Power;
    if v != w {
      MinimumDistance(v, w);
      assert forall p: nat | p < 13 :: v[p] == v[..13][p] && w[p] == w[..13][p];
      assert Differing(v, w) <= {13, 14, 15, 16};
      SubsetSize(Differing(v, w), {13, 14, 15, 16});
    }
  }

  // ----- the parity register

  /** One step of the register: shift in the symbol c, subtract feedback times x^4+30x^3+6x^2+9x+17. */
  function RegisterStep(p: seq<Sym>, c: Sym): (r: seq<Sym>)
    requires |p| == 4
    ensures |r| == 4
  {
    var fb := Add(c, p[3]);
    [Mul(17, fb), Add(p[0], Mul(9, fb)), Add(p[1], Mul(6, fb)), Add(p[2], Mul(30, fb))]
  }

  /** The register after feeding the symbols of m, highest index first. */
  function Parity(m: seq<Sym>): (r: seq<Sym>)
    ensures |r| == 4
  {
    if m == [] then [0, 0, 0, 0] else RegisterStep(Parity(m[1..]), m[0])
  }

  /** The message polynomial m[0] + m[1] x + ... at x. */
  function Eval(m: seq<Sym>, x: Sym): Sym {
    if m == [] then 0 else Add(m[0], Mul(x, Eval(m[1..], x)))
  }

  function Raise(x: Sym, n: nat): Sym {
    if n == 0 then 1 else Mul(x, Raise(x, n - 1))
  }

  /** x is a root of the generator polynomial x^4+30x^3+6x^2+9x+17. */
  predicate IsRoot(x: Sym) {
    Eval([17, 9, 6, 30], x) == Raise(x, 4)
  }

  lemma {:induction false} RaisePower(i: nat, n: nat)
    ensures Raise(Power(i), n) == Power(i * n)
  {
    hide Mul;
    if n == 0 {
      assert Power(0) == 1;
    } else {
      RaisePower(i, n - 1);
      PowerAdd(i, i * (n - 1));
      assert i + i * (n - 1) == i * n;
    }
  }

  lemma {:induction false} RaiseAdd(x: Sym, m: nat, n: nat)
    ensures Mul(Raise(x, m), Raise(x, n)) == Raise(x, m + n)
  {
    hide Mul;
    MulUnits(Raise(x, n), 0);
    if m == 0 {
    } else {
      RaiseAdd(x, m - 1, n);
      MulLaws(x, Raise(x, m - 1), Raise(x, n));
    }
  }

  lemma {:induction false} EvalSnoc(m: seq<Sym>, c: Sym, x: Sym)
    ensures Eval(m + [c], x) == Add(Eval(m, x), Mul(c, Raise(x, |m|)))
  {
    hide Mul, Add;
    if m == [] {
      assert (m + [c])[1..] == [];
      AddLaws(c, 0, 0);
      MulUnits(x, 0);
      MulUnits(c, 0);
    } else {
      EvalSnoc(m[1..], c, x);
      assert (m + [c])[1..] == m[1..] + [c];
      var e, r := Eval(m[1..], x), Raise(x, |m| - 1);
      MulLaws(x, e, Mul(c, r));
      AddLaws(m[0], Mul(x, e), Mul(x, Mul(c, r)));
      MulLaws(x, c, r);
      MulLaws(c, x, r);
    }
  }

  /** Symbol-wise sum of two polynomials of the same length. */
  function Sum(u: seq<Sym>, v: seq<Sym>): (r: seq<Sym>)
    requires |u| == |v|
    ensures |r| == |u|
  {
    seq(|u|, k requires 0 <= k < |u| => Add(u[k], v[k]))
  }

  function Scale(c: Sym, u: seq<Sym>): (r: seq<Sym>)
    ensures |r| == |u|
  {
    seq(|u|, k requires 0 <= k < |u| => Mul(c, u[k]))
  }

  lemma {:induction false} EvalSum(u: seq<Sym>, v: seq<Sym>, x: Sym)
    requires |u| == |v|
    ensures Eval(Sum(u, v), x) == Add(Eval(u, x), Eval(v, x))
  {
    hide Mul, Add;
    AddLaws(0, 0, 0);
    if u == [] {
    } else {
      EvalSum(u[1..], v[1..], x);
      assert Sum(u, v)[1..] == Sum(u[1..], v[1..]);
      var e, f := Eval(u[1..], x), Eval(v[1..], x);
      MulLaws(x, e, f);
      AddSwap(u[0], v[0], Mul(x, e), Mul(x, f));
    }
  }

  lemma {:induction false} EvalScale(c: Sym, u: seq<Sym>, x: Sym)
    ensures Eval(Scale(c, u), x) == Mul(c, Eval(u, x))
  {
    hide Mul, Add;
    MulUnits(c, 0);
    if u == [] {
    } else {
      EvalScale(c, u[1..], x);
      assert Scale(c, u)[1..] == Scale(c, u[1..]);
      var e := Eval(u[1..], x);
      MulLaws(c, u[0], Mul(x, e));
      MulLaws(x, c, e);
      MulLaws(c, x, e);
    }
  }

  lemma {:induction false} RegisterStepIsSum(p: seq<Sym>, c: Sym)
    requires |p| == 4
    ensures RegisterStep(p, c) == Sum(Scale(Add(c, p[3]), [17, 9, 6, 30]), [0] + p[..3])
  {
    hide Mul, Add;
    var fb := Add(c, p[3]);
    var u, v := Scale(fb, [17, 9, 6, 30]), [0] + p[..3];
    MulLaws(17, fb, 0);
    MulLaws(9, fb, 0);
    MulLaws(6, fb, 0);
    MulLaws(30, fb, 0);
    AddLaws(Mul(17, fb), 0, 0);
    AddLaws(p[0], Mul(9, fb), 0);
    AddLaws(p[1], Mul(6, fb), 0);
    AddLaws(p[2], Mul(30, fb), 0);
  }

  /** At a root of the generator, one step multiplies the register by x and adds c x^4. */
  lemma {:induction false} RegisterStepAtRoot(p: seq<Sym>, c: Sym, x: Sym)
    requires |p| == 4 && IsRoot(x)
    ensures Eval(RegisterStep(p, c), x) == Add(Mul(x, Eval(p, x)), Mul(c, Raise(x, 4)))
  {
    hide Mul, Add, Raise, RegisterStep;
    var fb, q, r4 := Add(c, p[3]), Eval(p[..3], x), Raise(x, 4);
    var top := Mul(p[3], r4);
    RegisterStepIsSum(p, c);
    EvalSum(Scale(fb, [17, 9, 6, 30]), [0] + p[..3], x);
    EvalScale(fb, [17, 9, 6, 30], x);
    assert Eval([0] + p[..3], x) == Mul(x, q) by {
      assert ([0] + p[..3])[1..] == p[..3];
      AddLaws(Mul(x, q), 0, 0);
    }
    assert Mul(x, Eval(p, x)) == Add(Mul(x, q), top) by {
      assert p == p[..3] + [p[3]];
      EvalSnoc(p[..3], p[3], x);
      MulLaws(x, q, Mul(p[3], Raise(x, 3)));
      MulLaws(x, p[3], Raise(x, 3));
      MulLaws(p[3], x, Raise(x, 3));
      RaiseFour(x);
    }
    MulLaws(r4, c, p[3]);
    AddLaws(Mul(c, r4), top, Mul(x, q));
    AddLaws(Mul(c, r4), Add(top, Mul(x, q)), 0);
    AddLaws(top, Mul(x, q), 0);
  }

  lemma RaiseFour(x: Sym)
    ensures Raise(x, 4) == Mul(x, Raise(x, 3))
  {
  }

  /** The register holds m(x) x^4 modulo the generator: both agree at every root. */
  lemma {:induction false} ParityAtRoot(m: seq<Sym>, x: Sym)
    requires IsRoot(x)
    ensures Eval(Parity(m), x) == Mul(Raise(x, 4), Eval(m, x))
  {
    hide Mul, Add, Raise, RegisterStep, IsRoot;
    var r4 := Raise(x, 4);
    if m == [] {
      ZeroRegister(x);
      MulUnits(r4, 0);
    } else {
      ParityAtRoot(m[1..], x);
      RegisterStepAtRoot(Parity(m[1..]), m[0], x);
      var e := Eval(m[1..], x);
      MulLaws(x, r4, e);
      MulLaws(r4, x, e);
      MulLaws(r4, m[0], Mul(x, e));
      MulLaws(m[0], r4, 0);
      AddLaws(Mul(r4, m[0]), Mul(r4, Mul(x, e)), 0);
    }
  }

  lemma {:induction false} ZeroRegister(x: Sym)
    ensures Eval([0, 0, 0, 0], x) == 0
  {
    hide Mul, Add;
    MulUnits(x, 0);
    AddLaws(0, 0, 0);
    var z: seq<Sym> := [0, 0, 0, 0];
    assert Eval(z[4..], x) == 0;
    assert Eval(z[3..], x) == 0 by { assert z[3..][1..] == z[4..]; }
    assert Eval(z[2..], x) == 0 by { assert z[2..][1..] == z[3..]; }
    assert Eval(z[1..], x) == 0 by { assert z[1..][1..] == z[2..]; }
  }

  /** Horner evaluation of the generator without its leading term. */
  lemma {:induction false} EvalGenerator(x: Sym)
    ensures Eval([17, 9, 6, 30], x) == Add(17, Mul(x, Add(9, Mul(x, Add(6, Mul(x, 30))))))
  {
    hide Mul, Add;
    MulUnits(x, 0);
    AddLaws(30, 0, 0);
    var g: seq<Sym> := [17, 9, 6, 30];
    assert Eval(g[4..], x) == 0;
    assert Eval(g[3..], x) == 30 by { assert g[3..][1..] == g[4..]; }
    assert Eval(g[2..], x) == Add(6, Mul(x, 30)) by { assert g[2..][1..] == g[3..]; }
    assert Eval(g[1..], x) == Add(9, Mul(x, Add(6, Mul(x, 30)))) by { assert g[1..][1..] == g[2..]; }
  }

  /** Mul of literals through the tables. */
  lemma {:induction false} Product(x: Sym, y: Sym, z: Sym)
    requires x != 0 && y != 0 && z == GEXP[(GOLG[x] + GOLG[y]) % 31]
    ensures Mul(x, y) == z
  {
    hide GEXP, GOLG;
    GmultIsMul(x, y);
  }

  /** Evaluation of the generator at x, given the three products and sums of the Horner scheme. */
  lemma {:induction false} RootByHorner(x: Sym, i: nat, p1: Sym, s1: Sym, p2: Sym, s2: Sym, p3: Sym)
    requires 1 <= i <= 4 && x == GEXP[i]
    requires Mul(x, 30) == p1 && Xor(6, p1) == s1
    requires Mul(x, s1) == p2 && Xor(9, p2) == s2
    requires Mul(x, s2) == p3 && Xor(17, p3) == GEXP[4 * i]
    ensures IsRoot(Power(i))
  {
    hide Mul, GEXP, Bits.Xor, Power, Eval, Raise;
    EvalGenerator(x);
    RaisePower(i, 4);
    GexpIsPower(i);
    GexpIsPower(4 * i);
    assert i * 4 == 4 * i && 4 * i % 31 == 4 * i && i % 31 == i;
  }

  lemma PowersTable()
    ensures |GEXP| == 32 && GEXP[1] == 2 && GEXP[2] == 4 && GEXP[3] == 8 && GEXP[4] == 16
    ensures GEXP[8] == 13 && GEXP[12] == 14 && GEXP[16] == 27
  {
  }

  lemma Products1()
    ensures Mul(2, 30) == 25 && Mul(2, 31) == 27 && Mul(2, 18) == 1
  {
    hide Mul;
    Product(2, 30, 25);
    Product(2, 31, 27);
    Product(2, 18, 1);
  }

  lemma {:induction false} Root1()
    ensures IsRoot(Power(1))
  {
    hide Mul, GEXP, Bits.Xor;
    PowersTable();
    Products1();
    XorFive(0, 0, 1, 1, 0, 1, 1, 0, 0, 1);
    XorFive(0, 1, 0, 0, 1, 1, 1, 0, 1, 1);
    XorFive(1, 0, 0, 0, 1, 0, 0, 0, 0, 1);
    RootByHorner(2, 1, 25, 31, 27, 18, 1);
  }

  lemma Products2()
    ensures Mul(4, 30) == 23 && Mul(4, 17) == 14 && Mul(4, 7) == 28
  {
    hide Mul;
    Product(4, 30, 23);
    Product(4, 17, 14);
    Product(4, 7, 28);
  }

  lemma {:induction false} Root2()
    ensures IsRoot(Power(2))
  {
    hide Mul, GEXP, Bits.Xor;
    PowersTable();
    Products2();
    XorFive(0, 0, 1, 1, 0, 1, 0, 1, 1, 1);
    XorFive(0, 1, 0, 0, 1, 0, 1, 1, 1, 0);
    XorFive(1, 0, 0, 0, 1, 1, 1, 1, 0, 0);
    RootByHorner(4, 2, 23, 17, 14, 7, 28);
  }

  lemma Products3()
    ensures Mul(8, 30) == 11 && Mul(8, 13) == 7 && Mul(8, 14) == 31
  {
    hide Mul;
    Product(8, 30, 11);
    Product(8, 13, 7);
    Product(8, 14, 31);
  }

  lemma {:induction false} Root3()
    ensures IsRoot(Power(3))
  {
    hide Mul, GEXP, Bits.Xor;
    PowersTable();
    Products3();
    XorFive(0, 0, 1, 1, 0, 0, 1, 0, 1, 1);
    XorFive(0, 1, 0, 0, 1, 0, 0, 1, 1, 1);
    XorFive(1, 0, 0, 0, 1, 1, 1, 1, 1, 1);
    RootByHorner(8, 3, 11, 13, 7, 14, 31);
  }

  lemma Products4()
    ensures Mul(16, 30) == 22 && Mul(16, 16) == 13 && Mul(16, 4) == 10
  {
    hide Mul;
    Product(16, 30, 22);
    Product(16, 16, 13);
    Product(16, 4, 10);
  }

  lemma {:induction false} Root4()
    ensures IsRoot(Power(4))
  {
    hide Mul, GEXP, Bits.Xor;
    PowersTable();
    Products4();
    XorFive(0, 0, 1, 1, 0, 1, 0, 1, 1, 0);
    XorFive(0, 1, 0, 0, 1, 0, 1, 1, 0, 1);
    XorFive(1, 0, 0, 0, 1, 0, 1, 0, 1, 0);
    RootByHorner(16, 4, 22, 16, 13, 4, 10);
  }

  /** a, a^2, a^3 and a^4 are the roots of the generator. */
  lemma {:induction false} GeneratorRoots(i: nat)
    requires 1 <= i <= 4
    ensures IsRoot(Power(i))
  {
    hide *;
    if i == 1 { Root1(); } else if i == 2 { Root2(); } else if i == 3 { Root3(); } else { Root4(); }
  }

  /** Placing the parity at exponents 27..30 cancels the message, of any length, at the four roots. */
  lemma {:induction false} ParityCancels(m: seq<Sym>, i: nat)
    requires 1 <= i <= 4
    ensures Add(Eval(m, Power(i)), Mul(Power(27 * i), Eval(Parity(m), Power(i)))) == 0
  {
    hide Mul, Add, Power;
    var x := Power(i);
    var e := Eval(m, x);
    GeneratorRoots(i);
    ParityAtRoot(m, x);
    RaisePower(i, 4);
    MulLaws(Power(27 * i), Power(4 * i), e);
    PowerAdd(27 * i, 4 * i);
    PowerOrder(31 * i, 0);
    PowerZero();
    MulUnits(e, 0);
    AddLaws(e, e, 0);
  }

  lemma PowerZero()
    ensures Power(0) == 1
  {
  }

  // ----- codewords are exactly the words whose parity the register computes

  lemma {:induction false} DataSyndrome(w: Word, i: nat, n: nat)
    requires n <= 13
    ensures SyndromeOf(w, i, n) == Eval(w[..n], Power(i))
  {
    hide Mul, Add, Power;
    if n == 0 {
    } else {
      DataSyndrome(w, i, n - 1);
      assert w[..n] == w[..n - 1] + [w[n - 1]];
      EvalSnoc(w[..n - 1], w[n - 1], Power(i));
      RaisePower(i, n - 1);
    }
  }

  lemma {:induction false} ParitySyndrome(w: Word, i: nat, k: nat)
    requires k <= 4
    ensures SyndromeOf(w, i, 13 + k)
            == Add(Eval(w[..13], Power(i)), Mul(Power(27 * i), Eval(w[13..13 + k], Power(i))))
  {
    hide Mul, Add, Power;
    var x, y := Power(i), Power(27 * i);
    var data := Eval(w[..13], x);
    if k == 0 {
      DataSyndrome(w, i, 13);
      MulUnits(y, 0);
      AddLaws(data, 0, 0);
    } else {
      var c := w[12 + k];
      var e, r := Eval(w[13..12 + k], x), Raise(x, k - 1);
      ParitySyndrome(w, i, k - 1);
      assert w[13..13 + k] == w[13..12 + k] + [c];
      EvalSnoc(w[13..12 + k], c, x);
      RaisePower(i, k - 1);
      PowerAdd(27 * i, i * (k - 1));
      assert 27 * i + i * (k - 1) == i * (26 + k);
      MulLaws(y, e, Mul(c, r));
      MulLaws(y, c, r);
      MulLaws(c, y, r);
      AddLaws(data, Mul(y, e), Mul(c, Mul(y, r)));
    }
  }

  /** Appending the register to the data gives a codeword. */
  lemma {:induction false} EncodedIsCodeword(m: seq<Sym>)
    requires |m| == 13
    ensures IsCodeword(m + Parity(m))
  {
    hide Mul, Add, Power, Parity;
    var w: Word := m + Parity(m);
    assert w[..13] == m && w[13..17] == Parity(m);
    forall i | 1 <= i <= 4
      ensures Syndrome(w, i) == 0
    {
      ParitySyndrome(w, i, 4);
      ParityCancels(m, i);
    }
  }

  /** The syndrome check accepts a word exactly when its last four symbols are the parity of its first thirteen. */
  lemma {:induction false} CodewordIffParity(w: Word)
    ensures IsCodeword(w) <==> w[13..] == Parity(w[..13])
  {
    hide Parity, IsCodeword;
    var m := w[..13];
    EncodedIsCodeword(m);
    if w[13..] == Parity(m) {
      assert w == m + Parity(m);
    }
    if IsCodeword(w) {
      var v: Word := m + Parity(m);
      assert v[..13] == w[..13];
      DataDeterminesCodeword(v, w);
      assert v[13..] == Parity(m);
    }
  }
}
