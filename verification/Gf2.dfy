/** Polynomials over GF(2): bit `i` of a natural number is the coefficient of x^i.  Addition is
    exclusive or, multiplication is carry-less, and remainders are characterised by existence and
    uniqueness. */
module Gf2 {
  import opened Words

  // ------------------------------------------------------------------ addition

  lemma XorComm(a: nat, b: nat)
    ensures Xor(a, b) == Xor(b, a)
  {
    forall i: nat ensures Bit(Xor(a, b), i) == Bit(Xor(b, a), i) {
      XorBit(a, b, i);
      XorBit(b, a, i);
    }
    Extensional(Xor(a, b), Xor(b, a));
  }

  lemma XorAssoc(a: nat, b: nat, c: nat)
    ensures Xor(Xor(a, b), c) == Xor(a, Xor(b, c))
  {
    forall i: nat ensures Bit(Xor(Xor(a, b), c), i) == Bit(Xor(a, Xor(b, c)), i) {
      XorBit(Xor(a, b), c, i);
      XorBit(a, b, i);
      XorBit(a, Xor(b, c), i);
      XorBit(b, c, i);
    }
    Extensional(Xor(Xor(a, b), c), Xor(a, Xor(b, c)));
  }

  lemma {:induction false} XorZero(a: nat)
    ensures Xor(a, 0) == a && Xor(0, a) == a
  {
    if a > 0 { XorZero(a / 2); }
  }

  lemma {:induction false} XorSelf(a: nat)
    ensures Xor(a, a) == 0
  {
    if a > 0 { XorSelf(a / 2); }
  }

  lemma XorCancel(a: nat, b: nat)
    ensures Xor(Xor(a, b), b) == a
  {
    XorAssoc(a, b, b);
    XorSelf(b);
    XorZero(a);
  }

  /** (a + b) + (c + d) == (a + c) + (b + d) */
  lemma XorSwap(a: nat, b: nat, c: nat, d: nat)
    ensures Xor(Xor(a, b), Xor(c, d)) == Xor(Xor(a, c), Xor(b, d))
  {
    XorAssoc(a, b, Xor(c, d));
    XorAssoc(b, c, d);
    XorComm(b, c);
    XorAssoc(c, b, d);
    XorAssoc(a, c, Xor(b, d));
  }

  lemma XorStep(a: nat, b: nat, ca: nat, cb: nat)
    requires ca < 2 && cb < 2
    ensures Xor(2 * a + ca, 2 * b + cb) == 2 * Xor(a, b) + (ca + cb) % 2
  {
    Halves(a, ca);
    Halves(b, cb);
    var x, y := 2 * a + ca, 2 * b + cb;
    assert (x + y) % 2 == (ca + cb) % 2;
    assert Xor(x, y) == 2 * Xor(x / 2, y / 2) + (x + y) % 2;
  }

  lemma XorDouble(a: nat, b: nat)
    ensures Xor(2 * a, 2 * b) == 2 * Xor(a, b)
  {
    XorStep(a, b, 0, 0);
  }

  lemma {:induction false} XorShl(a: nat, b: nat, n: nat)
    ensures Xor(Shl(a, n), Shl(b, n)) == Shl(Xor(a, b), n)
    decreases n
  {
    if n > 0 {
      XorShl(a, b, n - 1);
      XorDouble(Shl(a, n - 1), Shl(b, n - 1));
    }
  }

  lemma {:induction false} XorBound(a: nat, b: nat, n: nat)
    requires a < Pow2(n) && b < Pow2(n)
    ensures Xor(a, b) < Pow2(n)
    decreases n
  {
    if n > 0 { XorBound(a / 2, b / 2, n - 1); }
  }

  /** Adding something of lower degree keeps the leading term; adding something of the same degree
      cancels it. */
  lemma {:induction false} XorTop(a: nat, b: nat, n: nat)
    requires Pow2(n) <= a < Pow2(n + 1) && b < Pow2(n + 1)
    ensures b < Pow2(n) ==> Pow2(n) <= Xor(a, b) < Pow2(n + 1)
    ensures Pow2(n) <= b ==> Xor(a, b) < Pow2(n)
    decreases n
  {
    assert Xor(a, b) == 2 * Xor(a / 2, b / 2) + (a + b) % 2;
    if n > 0 {
      assert Pow2(n) == 2 * Pow2(n - 1) && Pow2(n + 1) == 2 * Pow2(n);
      XorTop(a / 2, b / 2, n - 1);
    } else {
      XorZero(0);
    }
  }

  lemma OrStep(a: nat, b: nat, cb: nat)
    requires cb < 2
    ensures Or(2 * a, 2 * b + cb) == 2 * Or(a, b) + cb
  {
    Halves(b, cb);
    Halves(a, 0);
    var x, y := 2 * a, 2 * b + cb;
    assert Or(x, y) == 2 * Or(x / 2, y / 2) + (if x % 2 == 1 || y % 2 == 1 then 1 else 0);
  }

  /** Below the shifted part exclusive or is addition, and so is inclusive or. */
  lemma ShlUnfold(a: nat, n: nat)
    requires n > 0
    ensures Shl(a, n) == 2 * Shl(a, n - 1)
  {
  }

  lemma XorAppend(a: nat, b: nat, c: nat)
    requires c < 2
    ensures Xor(2 * a, 2 * b + c) == 2 * Xor(a, b) + c
    ensures Or(2 * a, 2 * b + c) == 2 * Or(a, b) + c
  {
    hide Xor, Or;
    XorStep(a, b, 0, c);
    OrStep(a, b, c);
  }

  lemma {:induction false} XorLow(a: nat, b: nat, n: nat)
    requires b < Pow2(n)
    ensures Xor(Shl(a, n), b) == Shl(a, n) + b == Or(Shl(a, n), b)
    decreases n
  {
    if n == 0 {
      XorZero(a);
      OrZero(a);
    } else {
      hide Xor, Or, Shl;
      var s, h, c := Shl(a, n - 1), b / 2, b % 2;
      XorLow(a, h, n - 1);
      ShlUnfold(a, n);
      XorAppend(s, h, c);
      HalfSum(b);
      assert Shl(a, n) == 2 * s && b == 2 * h + c;
    }
  }

  lemma {:induction false} OrZero(a: nat)
    ensures Or(a, 0) == a && Or(0, a) == a
  {
    if a > 0 { OrZero(a / 2); }
  }

  // ------------------------------------------------------------------ multiplication

  function CMul(a: nat, b: nat): nat {
    if a == 0 then 0 else Xor(if a % 2 == 1 then b else 0, 2 * CMul(a / 2, b))
  }

  lemma CMulDouble(a: nat, b: nat)
    ensures CMul(2 * a, b) == 2 * CMul(a, b)
  {
    XorZero(2 * CMul(a, b));
  }

  lemma {:induction false} CMulZero(a: nat)
    ensures CMul(a, 0) == 0
  {
    if a > 0 {
      CMulZero(a / 2);
      XorZero(0);
    }
  }

  lemma {:induction false} CMulRight(a: nat, b: nat, c: nat)
    ensures CMul(a, Xor(b, c)) == Xor(CMul(a, b), CMul(a, c))
    decreases a
  {
    XorZero(0);
    if a > 0 {
      CMulRight(a / 2, b, c);
      var p, q := CMul(a / 2, b), CMul(a / 2, c);
      XorDouble(p, q);
      XorSwap(if a % 2 == 1 then b else 0, 2 * p, if a % 2 == 1 then c else 0, 2 * q);
    }
  }

  /** The product with the lowest coefficient `c` of the first factor split off. */
  function Lowest(c: nat, b: nat): nat {
    if c == 1 then b else 0
  }

  lemma CMulStep(a: nat, c: nat, b: nat)
    requires c < 2
    ensures CMul(2 * a + c, b) == Xor(Lowest(c, b), 2 * CMul(a, b))
  {
    Halves(a, c);
    XorZero(0);
  }

  lemma LowestAdd(ca: nat, cb: nat, c: nat)
    requires ca < 2 && cb < 2
    ensures Xor(Lowest(ca, c), Lowest(cb, c)) == Lowest((ca + cb) % 2, c)
  {
    hide Xor;
    XorSelf(c);
    XorZero(c);
    XorZero(0);
  }

  lemma {:induction false} CMulLeft(a: nat, b: nat, c: nat)
    ensures CMul(Xor(a, b), c) == Xor(CMul(a, c), CMul(b, c))
    decreases a + b
  {
    hide Xor, Lowest;
    if a + b == 0 {
      XorZero(0);
    } else {
      CMulLeft(a / 2, b / 2, c);
      hide CMul;
      var p, q := CMul(a / 2, c), CMul(b / 2, c);
      XorDouble(p, q);
      XorSwap(Lowest(a % 2, c), 2 * p, Lowest(b % 2, c), 2 * q);
      CMulStep(a / 2, a % 2, c);
      CMulStep(b / 2, b % 2, c);
      XorStep(a / 2, b / 2, a % 2, b % 2);
      CMulStep(Xor(a / 2, b / 2), (a % 2 + b % 2) % 2, c);
      LowestAdd(a % 2, b % 2, c);
    }
  }

  lemma CMulUnfold(a: nat, c: nat)
    ensures CMul(a, c) == Xor(if a % 2 == 1 then c else 0, 2 * CMul(a / 2, c))
  {
    XorZero(0);
  }

  lemma {:induction false} CMulShl(a: nat, b: nat, n: nat)
    ensures CMul(Shl(a, n), b) == Shl(CMul(a, b), n)
    decreases n
  {
    if n > 0 {
      CMulShl(a, b, n - 1);
      CMulDouble(Shl(a, n - 1), b);
    }
  }

  lemma CMulOne(b: nat)
    ensures CMul(1, b) == b
  {
    XorZero(b);
    assert CMul(0, b) == 0;
  }

  lemma {:induction false} CMulDoubleRight(a: nat, b: nat)
    ensures CMul(a, 2 * b) == 2 * CMul(a, b)
  {
    if a > 0 {
      CMulDoubleRight(a / 2, b);
      XorDouble(if a % 2 == 1 then b else 0, 2 * CMul(a / 2, b));
    }
  }

  lemma {:induction false} CMulAssoc(a: nat, b: nat, c: nat)
    ensures CMul(CMul(a, b), c) == CMul(a, CMul(b, c))
    decreases a
  {
    if a > 0 {
      CMulAssoc(a / 2, b, c);
      CMulLeft(if a % 2 == 1 then b else 0, 2 * CMul(a / 2, b), c);
      CMulDouble(CMul(a / 2, b), c);
    }
  }

  /** Degrees add, so a product of nonzero polynomials is nonzero. */
  lemma Pow2Half(a: nat, m: nat)
    requires m > 0 && Pow2(m) <= a < Pow2(m + 1)
    ensures Pow2(m - 1) <= a / 2 < Pow2(m)
  {
  }

  lemma Pow2Double(m: nat)
    ensures Pow2(m + 1) == 2 * Pow2(m)
  {
  }

  /** One more bit of degree: `y` is lower than `2p`. */
  lemma DegreeGrows(p: nat, y: nat, e: nat)
    requires e >= 1 && Pow2(e - 1) <= p < Pow2(e) && y < Pow2(e)
    ensures Pow2(e) <= Xor(y, 2 * p) < Pow2(e + 1)
  {
    Pow2Double(e - 1);
    Pow2Double(e);
    hide Xor, Pow2;
    XorComm(y, 2 * p);
    XorTop(2 * p, y, e);
  }

  lemma {:induction false} CMulDegree(a: nat, b: nat, m: nat, n: nat)
    requires Pow2(m) <= a < Pow2(m + 1) && Pow2(n) <= b < Pow2(n + 1)
    ensures Pow2(m + n) <= CMul(a, b) < Pow2(m + n + 1)
    decreases m
  {
    if m == 0 {
      CMulOne(b);
    } else {
      hide Pow2, CMul, Xor;
      Pow2Half(a, m);
      CMulDegree(a / 2, b, m - 1, n);
      assert m - 1 + n + 1 == m + n;
      CMulUnfold(a, b);
      CMulDegreeStep(CMul(a / 2, b), b, if a % 2 == 1 then b else 0, n, m + n);
    }
  }

  lemma CMulDegreeStep(p: nat, b: nat, y: nat, n: nat, e: nat)
    requires n < e && Pow2(e - 1) <= p < Pow2(e) && b < Pow2(n + 1) && y <= b
    ensures Pow2(e) <= Xor(y, 2 * p) < Pow2(e + 1)
  {
    hide Pow2, Xor;
    Pow2Monotone(n + 1, e);
    DegreeGrows(p, y, e);
  }

  // ------------------------------------------------------------------ division

  /** The degree of a nonzero polynomial. */
  function Degree(d: nat): nat
    requires d > 0
  {
    Length(d) - 1
  }

  /** `z` has the degree of `d` or a higher one. */
  predicate HasDegree(z: nat, d: nat)
    requires d > 0
  {
    z >= Pow2(Degree(d))
  }

  function Rem(a: nat, d: nat): nat
    requires d > 0
  {
    if a == 0 then 0 else
    var z := 2 * Rem(a / 2, d) + a % 2;
    if HasDegree(z, d) then Xor(z, d) else z
  }

  /** `r` is what is left of `a` after subtracting a multiple of `d`, and has a lower degree than `d`. */
  ghost predicate IsRem(a: nat, d: nat, r: nat)
    requires d > 0
  {
    r < Pow2(Degree(d)) && exists q: nat :: a == Xor(CMul(q, d), r)
  }

  lemma {:induction false} RemBound(a: nat, d: nat)
    requires d > 0
    ensures Rem(a, d) < Pow2(Degree(d))
  {
    if a > 0 {
      RemBound(a / 2, d);
      LengthBound(d);
      var z := 2 * Rem(a / 2, d) + a % 2;
      assert Pow2(Degree(d) + 1) == 2 * Pow2(Degree(d));
      if z >= Pow2(Degree(d)) {
        XorTop(z, d, Degree(d));
      }
    }
  }

  /** One bit of long division. */
  lemma RemUnfold(a: nat, d: nat)
    requires d > 0 && a > 0
    ensures var z := 2 * Rem(a / 2, d) + a % 2; Rem(a, d) == if HasDegree(z, d) then Xor(z, d) else z
  {
    hide Xor, HasDegree;
  }

  lemma DivisionTurn(a: nat, h: nat, c: nat, q: nat, r: nat, z: nat, d: nat) returns (q': nat)
    requires d > 0 && c < 2 && a == 2 * h + c && z == 2 * r + c && h == Xor(CMul(q, d), r)
    ensures a == Xor(CMul(q', d), if HasDegree(z, d) then Xor(z, d) else z)
  {
    hide Xor, CMul, HasDegree;
    DivisionStep(h, q, r, c, d);
    q' := if HasDegree(z, d) then 2 * q + 1 else 2 * q;
  }

  lemma {:induction false} Division(a: nat, d: nat) returns (q: nat)
    requires d > 0
    ensures a == Xor(CMul(q, d), Rem(a, d))
  {
    if a == 0 {
      XorZero(0);
      q := 0;
    } else {
      RemUnfold(a, d);
      HalfSum(a);
      hide Xor, CMul, Rem, HasDegree;
      var h, c := a / 2, a % 2;
      var r := Rem(h, d);
      q := Division(h, d);
      q := DivisionTurn(a, h, c, q, r, 2 * r + c, d);
    }
  }

  lemma HalfSum(a: nat)
    ensures a == 2 * (a / 2) + a % 2
  {
  }

  /** From the division of the high part: subtract `d` once more, or not. */
  lemma DivisionStep(h: nat, q: nat, r: nat, c: nat, d: nat)
    requires c < 2 && d > 0 && h == Xor(CMul(q, d), r)
    ensures 2 * h + c == Xor(CMul(2 * q, d), 2 * r + c) == Xor(CMul(2 * q + 1, d), Xor(2 * r + c, d))
  {
    hide Xor, CMul;
    var p, z := CMul(q, d), 2 * r + c;
    XorAppend(p, r, c);
    CMulStep(q, 0, d);
    CMulStep(q, 1, d);
    XorZero(2 * p);
    AddTwice(2 * p, z, d);
  }

  /** (d + p) + (z + d) == p + z */
  lemma AddTwice(p: nat, z: nat, d: nat)
    ensures Xor(Xor(d, p), Xor(z, d)) == Xor(p, z)
  {
    hide Xor;
    XorComm(d, p);
    XorAssoc(p, d, Xor(z, d));
    XorComm(d, Xor(z, d));
    XorCancel(z, d);
  }

  lemma RemIsRem(a: nat, d: nat)
    requires d > 0
    ensures IsRem(a, d, Rem(a, d))
  {
    RemBound(a, d);
    var qa := Division(a, d);
  }

  /** A nonzero multiple of `d` has at least the degree of `d`. */
  lemma MultipleIsLarge(q: nat, d: nat)
    requires d > 0 && CMul(q, d) < Pow2(Degree(d))
    ensures CMul(q, d) == 0
  {
    if q > 0 {
      LengthBound(q);
      LengthBound(d);
      CMulDegree(q, d, Length(q) - 1, Degree(d));
      Pow2Monotone(Degree(d), Length(q) - 1 + Degree(d));
    }
  }

  /** There is only one remainder. */
  lemma RemUnique(a: nat, d: nat, r: nat)
    requires d > 0 && IsRem(a, d, r)
    ensures r == Rem(a, d)
  {
    RemIsRem(a, d);
    var qa := Division(a, d);
    var q: nat :| a == Xor(CMul(q, d), r);
    var q', r' := qa, Rem(a, d);
    // (q + q') d == r + r'
    CMulLeft(q, q', d);
    XorSwap(CMul(q, d), r, CMul(q', d), r');
    XorSelf(a);
    EqualIfZero(CMul(Xor(q, q'), d), Xor(r, r'));
    XorBound(r, r', Degree(d));
    MultipleIsLarge(Xor(q, q'), d);
    EqualIfZero(r, r');
  }

  lemma EqualIfZero(a: nat, b: nat)
    requires Xor(a, b) == 0
    ensures a == b
  {
    XorCancel(a, b);
    XorZero(b);
  }

  // ------------------------------------------------------------------ remainders of sums and products

  lemma RemAdd(a: nat, b: nat, d: nat)
    requires d > 0
    ensures Rem(Xor(a, b), d) == Xor(Rem(a, d), Rem(b, d))
  {
    var qa := Division(a, d);
    var qb := Division(b, d);
    RemBound(a, d);
    RemBound(b, d);
    XorBound(Rem(a, d), Rem(b, d), Degree(d));
    XorSwap(CMul(qa, d), Rem(a, d), CMul(qb, d), Rem(b, d));
    CMulLeft(qa, qb, d);
    RemUnique(Xor(a, b), d, Xor(Rem(a, d), Rem(b, d)));
  }

  lemma RemSmall(a: nat, d: nat)
    requires d > 0 && a < Pow2(Degree(d))
    ensures Rem(a, d) == a
  {
    XorZero(a);
    assert CMul(0, d) == 0;
    RemUnique(a, d, a);
  }

  lemma RemMultiple(q: nat, d: nat)
    requires d > 0
    ensures Rem(CMul(q, d), d) == 0
  {
    XorZero(CMul(q, d));
    RemUnique(CMul(q, d), d, 0);
  }

  lemma RemShl(d: nat, n: nat)
    requires d > 0
    ensures Rem(Shl(d, n), d) == 0
  {
    CMulOne(d);
    CMulShl(1, d, n);
    RemMultiple(Shl(1, n), d);
  }

  /** Reducing a factor first does not change the remainder of a product. */
  lemma RemProduct(c: nat, a: nat, d: nat)
    requires d > 0
    ensures Rem(CMul(c, a), d) == Rem(CMul(c, Rem(a, d)), d)
  {
    var qa := Division(a, d);
    CMulRight(c, CMul(qa, d), Rem(a, d));
    CMulAssoc(c, qa, d);
    RemAdd(CMul(c, CMul(qa, d)), CMul(c, Rem(a, d)), d);
    RemMultiple(CMul(c, qa), d);
    XorZero(Rem(CMul(c, Rem(a, d)), d));
  }

  lemma RemShifted(a: nat, n: nat, d: nat)
    requires d > 0
    ensures Rem(Shl(a, n), d) == Rem(Shl(Rem(a, d), n), d)
  {
    CMulOne(a);
    CMulOne(Rem(a, d));
    CMulShl(1, a, n);
    CMulShl(1, Rem(a, d), n);
    RemProduct(Shl(1, n), a, d);
  }
}
