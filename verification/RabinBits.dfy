/** The bit-level functions of src/dedup/rabin_poly.cc, lines 18-97: find-last-set, carry-less
    multiplication into 128 bits, and reduction of 128 bits by a 64-bit polynomial. */
module RabinBits {
  import opened Words
  import opened Gf2

  // ------------------------------------------------------------------ shifts

  lemma {:induction false} HighLow(a: nat, n: nat)
    ensures a == Shl(Shr(a, n), n) + Low(a, n) == Xor(Shl(Shr(a, n), n), Low(a, n))
  {
    LowBound(a, n);
    XorLow(Shr(a, n), Low(a, n), n);
    if n > 0 {
      HighLow(a / 2, n - 1);
    }
  }

  lemma {:induction false} ShlShl(a: nat, m: nat, n: nat)
    ensures Shl(Shl(a, m), n) == Shl(a, m + n)
    decreases n
  {
    if n > 0 { ShlShl(a, m, n - 1); }
  }

  lemma {:induction false} ShrShl(a: nat, m: nat, n: nat)
    ensures m <= n ==> Shr(Shl(a, m), n) == Shr(a, n - m)
    ensures n <= m ==> Shr(Shl(a, m), n) == Shl(a, m - n)
    decreases m
  {
    if m > 0 && n > 0 { ShrShl(a, m - 1, n - 1); }
  }

  lemma {:induction false} ShlBound(a: nat, m: nat, n: nat)
    ensures a < Pow2(m) ==> Shl(a, n) < Pow2(m + n)
    ensures Pow2(m) <= a ==> Pow2(m + n) <= Shl(a, n)
    decreases n
  {
    if n > 0 { ShlBound(a, m, n - 1); }
  }

  lemma {:induction false} ShrBound(a: nat, m: nat, n: nat)
    requires n <= m
    ensures a < Pow2(m) ==> Shr(a, n) < Pow2(m - n)
    ensures Pow2(m) <= a ==> Pow2(m - n) <= Shr(a, n)
    decreases n
  {
    if n > 0 { ShrBound(a / 2, m - 1, n - 1); }
  }

  /** Testing the highest bit a number may have. */
  lemma {:induction false} TestTop(a: nat, i: nat)
    requires a < Pow2(i + 1)
    ensures Bit(a, i) <==> Pow2(i) <= a
    decreases i
  {
    if i > 0 { TestTop(a / 2, i - 1); }
  }

  lemma DegreeIs(d: nat, n: nat)
    requires Pow2(n) <= d < Pow2(n + 1)
    ensures d > 0 && Degree(d) == n
  {
    LengthFits(d, n + 1);
    LengthBound(d);
    if Length(d) < n + 1 {
      Pow2Monotone(Length(d), n);
    }
  }

  lemma DegreeBound(d: nat)
    requires d > 0
    ensures Pow2(Degree(d)) <= d < Pow2(Degree(d) + 1)
  {
    LengthBound(d);
  }

  // ------------------------------------------------------------------ fls

  /** The mask test `x & (2^n - 2^m)`: no bit from `m` on. */
  lemma AndTwice(x: nat, y: nat)
    ensures And(x, 2 * y) == 2 * And(x / 2, y)
  {
    Halves(y, 0);
    AndEven(x, 2 * y);
    hide And;
  }

  lemma HalfBelow(x: nat, p: nat)
    ensures x < 2 * p <==> x / 2 < p
  {
  }

  lemma HighMaskStep(x: nat, p: nat, r: nat)
    requires p <= r && (And(x / 2, r - p) == 0 <==> x / 2 < p)
    ensures And(x, 2 * r - 2 * p) == 0 <==> x < 2 * p
  {
    hide And;
    HalfBelow(x, p);
    AndTwice(x, r - p);
    assert 2 * r - 2 * p == 2 * (r - p);
  }

  lemma HighMaskAll(x: nat, n: nat)
    requires x < Pow2(n)
    ensures Pow2(0) == 1 && And(x, Pow2(n) - 1) == x
  {
    assert Pow2(0) == 1;
    hide And, Low, Pow2;
    MaskIsLow(x, n);
    LowBound(x, n);
  }

  lemma Pow2Up(n: nat)
    requires n > 0
    ensures Pow2(n) == 2 * Pow2(n - 1)
  {
  }

  lemma {:induction false} HighMask(x: nat, m: nat, n: nat)
    requires m <= n && x < Pow2(n)
    ensures Pow2(m) <= Pow2(n)
    ensures And(x, Pow2(n) - Pow2(m)) == 0 <==> x < Pow2(m)
    decreases m
  {
    hide Pow2, And;
    Pow2Monotone(m, n);
    if m == 0 {
      HighMaskAll(x, n);
    } else {
      Pow2Up(m);
      Pow2Up(n);
      HalfBelow(x, Pow2(n - 1));
      HighMask(x / 2, m - 1, n - 1);
      HighMaskStep(x, Pow2(m - 1), Pow2(n - 1));
    }
  }

  lemma AndEven(x: nat, y: nat)
    requires y % 2 == 0
    ensures And(x, y) == 2 * And(x / 2, y / 2)
  {
  }

  lemma {:induction false} LengthShl(a: nat, n: nat)
    requires a > 0
    ensures Length(Shl(a, n)) == Length(a) + n
    decreases n
  {
    if n > 0 {
      LengthShl(a, n - 1);
      Halves(Shl(a, n - 1), 0);
      assert Shl(a, n) / 2 == Shl(a, n - 1);
    }
  }

  /** One round of fls32: shift left by `n` if the top `n` of the 32 bits are clear. */
  method FlsRound(x: nat, r: nat, n: nat, mask: nat, ghost x0: nat, ghost top: nat) returns (x': nat, r': nat)
    requires 0 < x0 < Pow2(32) && r <= 32 && x == Shl(x0, 32 - r) && x < Pow2(32) && Length(x) > 32 - top
    requires top == 2 * n && n <= 16 && mask == Pow2(32) - Pow2(32 - n)
    ensures r' <= 32 && x' == Shl(x0, 32 - r') && x' < Pow2(32) && Length(x') > 32 - n
  {
    hide Pow2, Length, Shl, And, Low;
    x', r' := x, r;
    HighMask(x, 32 - n, 32);
    LengthShl(x0, 32 - r);
    LengthPositive(x0);
    if And(x, mask) == 0 {
      LengthFits(x, 32 - n);
      ShlBound(x, 32 - n, n);
      ShlShl(x0, 32 - r, n);
      LengthShl(x0, 32 - r + n);
      LowBound(Shl(x, n), 32);
      x' := Low(Shl(x, n), 32);
      r' := r - n;
    } else {
      LongLength(x, 32 - n);
    }
  }

  lemma LongLength(x: nat, n: nat)
    requires Pow2(n) <= x
    ensures Length(x) > n
  {
    LengthBound(x);
    if Length(x) <= n {
      Pow2Monotone(Length(x), n);
    }
  }

  /** fls32, lines 18-44: the position of the highest set bit, counted from 1. */
  method Fls32(x0: nat) returns (r: nat)
    requires x0 < Pow2(32)
    ensures r == Length(x0)
  {
    hide Pow2, Length, Shl, And;
    if x0 == 0 {
      r := 0;
      LengthFitsZero();
    } else {
      MaskValues();
      LengthPositive(x0);
      var x := x0;
      r := 32;
      assert Shl(x0, 0) == x0 by { ShlZero(x0); }
      x, r := FlsRound(x, r, 16, 0xffff_0000, x0, 32);
      x, r := FlsRound(x, r, 8, 0xff00_0000, x0, 16);
      x, r := FlsRound(x, r, 4, 0xf000_0000, x0, 8);
      x, r := FlsRound(x, r, 2, 0xc000_0000, x0, 4);
      x, r := FlsRound(x, r, 1, 0x8000_0000, x0, 2);
      LengthShl(x0, 32 - r);
      LengthFits(x, 32);
    }
  }

  lemma ShlZero(a: nat)
    ensures Shl(a, 0) == a
  {
  }

  lemma LengthFitsZero()
    ensures Length(0) == 0
  {
  }

  lemma LengthPositive(x: nat)
    requires x > 0
    ensures Length(x) > 0
  {
  }

  lemma MaskValues()
    ensures Pow2(32) - Pow2(16) == 0xffff_0000 && Pow2(32) - Pow2(24) == 0xff00_0000
    ensures Pow2(32) - Pow2(28) == 0xf000_0000 && Pow2(32) - Pow2(30) == 0xc000_0000
    ensures Pow2(32) - Pow2(31) == 0x8000_0000
  {
    Pow2Values();
    Pow2Byte(8);
    Pow2Byte(16);
    Pow2Byte(24);
    assert Pow2(32) == 2 * Pow2(31);
    assert Pow2(31) == 2 * Pow2(30);
    assert Pow2(30) == 2 * Pow2(29);
    assert Pow2(29) == 2 * Pow2(28);
  }

  /** fls64, lines 46-52. */
  method Fls64(v: nat) returns (r: nat)
    requires v < TWO_64
    ensures r == Length(v)
  {
    hide Pow2, Length, Shr, Low;
    Pow2Values();
    var h := Shr(v, 32);
    ShrBound(v, 64, 32);
    if h != 0 {
      r := Fls32(h);
      r := 32 + r;
      LengthShr(v, 32);
    } else {
      LowBound(v, 32);
      ShrZero(v, 32);
      r := Fls32(Low(v, 32));
    }
  }

  lemma {:induction false} LengthShr(v: nat, n: nat)
    requires Shr(v, n) != 0
    ensures Length(v) == n + Length(Shr(v, n))
  {
    if n > 0 {
      if v == 0 { ShrOfZero(n); }
      LengthShr(v / 2, n - 1);
    }
  }

  lemma {:induction false} ShrOfZero(n: nat)
    ensures Shr(0, n) == 0
  {
    if n > 0 { ShrOfZero(n - 1); }
  }

  lemma {:induction false} ShrZero(v: nat, n: nat)
    requires Shr(v, n) == 0
    ensures v < Pow2(n)
  {
    if n > 0 { ShrZero(v / 2, n - 1); }
  }

  // ------------------------------------------------------------------ polymult

  /** A 128-bit value from its two words. */
  function Wide(h: nat, l: nat): nat {
    Xor(Shl(h, 64), l)
  }

  /** Adding `a * x^e` to a 128-bit value, word by word. */
  lemma AddWide(h: nat, l: nat, a: nat, e: nat)
    requires e <= 64
    ensures Wide(Xor(h, Shr(a, 64 - e)), Xor(l, Shl64(a, e))) == Xor(Wide(h, l), Shl(a, e))
  {
    hide Xor, Shl, Shr, Low;
    HighLow(Shl(a, e), 64);
    ShrShl(a, e, 64);
    XorShl(h, Shr(a, 64 - e), 64);
    XorSwap(Shl(h, 64), Shl(Shr(a, 64 - e), 64), l, Low(Shl(a, e), 64));
  }

  /** Taking one more bit of `x` into the product. */
  lemma LowGrowsStep(l: nat, t: nat, c: nat)
    requires c < 2
    ensures 2 * Xor(l, t) + c == Xor(2 * l + c, 2 * t)
  {
    hide Xor;
    XorAppend(t, l, c);
    XorComm(2 * t, 2 * l + c);
    XorComm(t, l);
  }

  lemma {:induction false} LowGrows(x: nat, i: nat)
    ensures Low(x, i + 1) == Xor(Low(x, i), if Bit(x, i) then Shl(1, i) else 0)
    decreases i
  {
    LowUnfold(x, i + 1);
    if i == 0 {
      XorZero(x % 2);
    } else {
      hide Xor, Low, Bit, Shl;
      var l, t, c := Low(x / 2, i - 1), if Bit(x / 2, i - 1) then Shl(1, i - 1) else 0, x % 2;
      LowGrows(x / 2, i - 1);
      LowUnfold(x, i);
      BitUnfold(x, i);
      ShlUnfold(1, i);
      LowGrowsStep(l, t, c);
      assert Low(x, i) == 2 * l + c;
      assert (if Bit(x, i) then Shl(1, i) else 0) == 2 * t;
    }
  }

  lemma ProductGrows(x: nat, y: nat, i: nat)
    ensures CMul(Low(x, i + 1), y) == if Bit(x, i) then Xor(CMul(Low(x, i), y), Shl(y, i)) else CMul(Low(x, i), y)
  {
    hide Xor, Low, Shl, CMul, Bit;
    LowGrows(x, i);
    XorZero(Low(x, i));
    CMulLeft(Low(x, i), Shl(1, i), y);
    CMulShl(1, y, i);
    CMulOne(y);
  }

  /** polymult, lines 76-91: the two words of the carry-less product. */
  method PolyMult(x: nat, y: nat) returns (ph: nat, pl: nat)
    requires x < TWO_64 && y < TWO_64
    ensures ph < TWO_64 && pl < TWO_64 && Wide(ph, pl) == CMul(x, y)
  {
    hide Xor, Low, Shl, Shr, CMul, Bit, Pow2;
    Pow2Values();
    LowBound(x, 64);
    ph, pl := 0, 0;
    FirstBit(x, y);
    if Bit(x, 0) {
      pl := y;
    }
    var i := 1;
    while i < 64
      invariant 1 <= i <= 64 && ph < TWO_64 && pl < TWO_64
      invariant Wide(ph, pl) == CMul(Low(x, i), y)
    {
      ProductGrows(x, y, i);
      if Bit(x, i) {
        AddWide(ph, pl, y, i);
        ShrSmall(y, 64 - i, 64);
        LowBound(Shl(y, i), 64);
        XorBound(ph, Shr(y, 64 - i), 64);
        XorBound(pl, Shl64(y, i), 64);
        ph := Xor(ph, Shr(y, 64 - i));
        pl := Xor(pl, Shl64(y, i));
      }
      i := i + 1;
    }
  }

  lemma FirstBit(x: nat, y: nat)
    ensures Wide(0, if Bit(x, 0) then y else 0) == CMul(Low(x, 1), y)
  {
    assert Low(x, 1) == x % 2 + 2 * Low(x / 2, 0);
    ShlOfZero(64);
    XorZero(y);
    XorZero(0);
    CMulOne(y);
    assert CMul(0, y) == 0;
  }

  lemma {:induction false} ShlOfZero(n: nat)
    ensures Shl(0, n) == 0
  {
    if n > 0 { ShlOfZero(n - 1); }
  }

  lemma {:induction false} ShrSmall(a: nat, n: nat, m: nat)
    requires a < Pow2(m)
    ensures Shr(a, n) < Pow2(m)
    decreases n
  {
    if n > 0 { ShrSmall(a / 2, n - 1, m); }
  }

  /** The high word of a product of 64-bit words never has bit 63 set. */
  lemma ProductFits(x: nat, y: nat, ph: nat, pl: nat)
    requires x < Pow2(64) && y < Pow2(64) && pl < Pow2(64) && Wide(ph, pl) == CMul(x, y)
    ensures ph < Pow2(63)
  {
    hide Xor, Shl, CMul, Length, Pow2;
    if Pow2(63) <= ph {
      ShlBound(ph, 63, 64);
      XorLow(ph, pl, 64);
      ProductBound(x, y, 64);
    }
  }

  lemma ProductBound(x: nat, y: nat, n: nat)
    requires x < Pow2(n) && y < Pow2(n) && n > 0
    ensures CMul(x, y) < Pow2(2 * n - 1)
  {
    if x > 0 && y > 0 {
      LengthFits(x, n);
      LengthFits(y, n);
      LengthBound(x);
      LengthBound(y);
      hide CMul, Length, Pow2;
      LengthPositive(x);
      LengthPositive(y);
      CMulDegree(x, y, Length(x) - 1, Length(y) - 1);
      Pow2Monotone(Length(x) - 1 + Length(y) - 1 + 1, 2 * n - 1);
    } else if x > 0 {
      CMulZero(x);
    }
  }

  // ------------------------------------------------------------------ polymod

  /** Subtracting a shifted multiple of `d` leaves the remainder. */
  lemma RemWithout(v: nat, d: nat, n: nat)
    requires d > 0
    ensures Rem(Xor(v, Shl(d, n)), d) == Rem(v, d)
  {
    RemAdd(v, Shl(d, n), d);
    RemShl(d, n);
    XorZero(Rem(v, d));
  }

  /** One subtraction in the high word: lines 60-61 with e = 64, lines 62-66 with e = i + 1. */
  lemma HighRound(h: nat, l: nat, d: nat, m: nat, e: nat)
    requires d > 0 && 1 <= e <= 64 && Pow2(63) <= Shl(d, m) < Pow2(64) && Pow2(e - 1) <= h < Pow2(e)
    ensures var dn := Shl(d, m);
      && Rem(Wide(Xor(h, Shr(dn, 64 - e)), Xor(l, Shl64(dn, e))), d) == Rem(Wide(h, l), d)
      && Xor(h, Shr(dn, 64 - e)) < Pow2(e - 1)
  {
    hide Xor, Shl, Shr, Low, Rem, Length, Pow2;
    AddWide(h, l, Shl(d, m), e);
    ShlShl(d, m, e);
    RemWithout(Wide(h, l), d, m + e);
    ShrBound(Shl(d, m), 63, 64 - e);
    ShrBound(Shl(d, m), 64, 64 - e);
    XorTop(h, Shr(Shl(d, m), 64 - e), e - 1);
  }

  /** One subtraction in the low word, lines 70-71. */
  lemma LowRound(l: nat, d: nat, k: nat, i: nat)
    requires d > 0 && k <= i <= 63 && Pow2(k) <= d < Pow2(k + 1) && Pow2(i) <= l < Pow2(i + 1)
    ensures var l' := Xor(l, Shr(Shl(d, 63 - k), 63 - i));
      Rem(l', d) == Rem(l, d) && l' < Pow2(i)
  {
    hide Xor, Shl, Shr, Rem, Length, Pow2;
    ShrShl(d, 63 - k, 63 - i);
    RemWithout(l, d, i - k);
    ShlBound(d, k, i - k);
    ShlBound(d, k + 1, i - k);
    XorTop(l, Shl(d, i - k), i);
  }

  lemma Normalised(d: nat)
    requires 0 < d < Pow2(64)
    ensures Degree(d) <= 63 && Pow2(63) <= Shl(d, 63 - Degree(d)) < Pow2(64)
    ensures Shl64(d, 63 - Degree(d)) == Shl(d, 63 - Degree(d))
  {
    LengthFits(d, 64);
    DegreeBound(d);
    var k := Degree(d);
    hide Shl, Low, Length, Pow2;
    ShlBound(d, k, 63 - k);
    ShlBound(d, k + 1, 63 - k);
    LowBound(Shl(d, 63 - k), 64);
  }

  /** polymod, lines 54-74: the remainder of the 128-bit polynomial (nh, nl) by `d`. */
  method PolyMod(nh: nat, nl: nat, d: nat) returns (r: nat)
    requires nh < TWO_64 && nl < TWO_64 && 0 < d < TWO_64
    ensures r == Rem(Wide(nh, nl), d) && r < Pow2(Degree(d))
  {
    hide Xor, Low, Shl, Shr, Rem, Bit, Pow2, Length;
    Pow2Values();
    Normalised(d);
    DegreeBound(d);
    var f := Fls64(d);
    var k: int := f - 1;
    ghost var m := 63 - k;
    var dn := Shl64(d, 63 - k);
    var h: nat, l: nat := nh, nl;
    ghost var v := Rem(Wide(nh, nl), d);
    if h != 0 {
      TestTop(h, 63);
      if Bit(h, 63) {
        HighRound(h, l, d, m, 64);
        ShrNone(dn);
        ShlAll(dn);
        XorNothing(l);
        h := Xor(h, dn);
      }
      var i := 62;
      while i >= 0
        invariant -1 <= i <= 62 && h < Pow2(i + 1) && l < TWO_64 && Rem(Wide(h, l), d) == v
      {
        TestTop(h, i);
        if Bit(h, i) {
          HighRound(h, l, d, m, i + 1);
          LowBound(Shl(dn, i + 1), 64);
          XorBound(l, Shl64(dn, i + 1), 64);
          h := Xor(h, Shr(dn, 63 - i));
          l := Xor(l, Shl64(dn, i + 1));
        }
        i := i - 1;
      }
      Pow2Zero();
    }
    NoHigh(l);
    var j: int := 63;
    while j >= k
      invariant k <= j + 1 <= 64 && l < Pow2(j + 1) && Rem(l, d) == v
    {
      TestTop(l, j);
      if Bit(l, j) {
        LowRound(l, d, k, j);
        l := Xor(l, Shr(dn, 63 - j));
      }
      j := j - 1;
    }
    RemSmall(l, d);
    r := l;
  }

  lemma ShrNone(a: nat)
    ensures Shr(a, 0) == a
  {
  }

  lemma ShlAll(a: nat)
    ensures Shl64(a, 64) == 0
  {
    ShrShl(a, 64, 64);
    HighLow(Shl(a, 64), 64);
  }

  lemma XorNothing(a: nat)
    ensures Xor(a, 0) == a
  {
    XorZero(a);
  }

  lemma Pow2Zero()
    ensures Pow2(0) == 1
  {
  }

  lemma NoHigh(l: nat)
    ensures Wide(0, l) == l
  {
    ShlOfZero(64);
    XorZero(l);
  }

  /** polymmult, lines 93-97: the remainder of the carry-less product.  The branch of line 60, bit 63
      of the high word, is never taken from here. */
  method PolyMMult(x: nat, y: nat, d: nat) returns (r: nat)
    requires x < TWO_64 && y < TWO_64 && 0 < d < TWO_64
    ensures IsRem(CMul(x, y), d, r)
    ensures forall r': nat :: IsRem(CMul(x, y), d, r') ==> r' == r
    ensures r == Rem(CMul(x, y), d)
  {
    hide Xor, Low, Shl, Rem, CMul, Pow2, Length;
    Pow2Values();
    var h, l := PolyMult(x, y);
    ProductFits(x, y, h, l);
    assert h < Pow2(63);
    r := PolyMod(h, l, d);
    RemIsRem(CMul(x, y), d);
    forall r': nat | IsRem(CMul(x, y), d, r') ensures r' == r {
      RemUnique(CMul(x, y), d, r');
    }
  }
}
