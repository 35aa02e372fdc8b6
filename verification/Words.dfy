/** Bit operations on natural numbers, and unsigned 64-bit words as the numbers below 2^64. */
module Words {

  type byte = n: nat | n < 256

  function Pow2(n: nat): (r: nat)
    ensures r >= 1
  {
    if n == 0 then 1 else 2 * Pow2(n - 1)
  }

  const TWO_32: nat := 0x1_0000_0000
  const TWO_64: nat := 0x1_0000_0000_0000_0000

  /** `a + b` and `a - b` on 64-bit words, wrapping around. */
  function Add64(a: nat, b: nat): (r: nat)
    requires a < TWO_64 && b < TWO_64
    ensures r < TWO_64
  {
    if a + b < TWO_64 then a + b else a + b - TWO_64
  }

  function Sub64(a: nat, b: nat): (r: nat)
    requires a < TWO_64 && b < TWO_64
    ensures r < TWO_64
  {
    if a >= b then a - b else a + TWO_64 - b
  }

  /** The low `n` bits of `a`: what an `n`-bit register keeps. */
  function Low(a: nat, n: nat): nat {
    if n == 0 then 0 else a % 2 + 2 * Low(a / 2, n - 1)
  }

  function Bit(a: nat, i: nat): bool {
    if i == 0 then a % 2 == 1 else Bit(a / 2, i - 1)
  }

  function Xor(a: nat, b: nat): nat
    decreases a + b
  {
    if a == 0 && b == 0 then 0 else 2 * Xor(a / 2, b / 2) + (a + b) % 2
  }

  function Or(a: nat, b: nat): nat
    decreases a + b
  {
    if a == 0 && b == 0 then 0 else 2 * Or(a / 2, b / 2) + (if a % 2 == 1 || b % 2 == 1 then 1 else 0)
  }

  function And(a: nat, b: nat): nat
    decreases a + b
  {
    if a == 0 || b == 0 then 0 else 2 * And(a / 2, b / 2) + (if a % 2 == 1 && b % 2 == 1 then 1 else 0)
  }

  function Shr(a: nat, n: nat): nat {
    if n == 0 then a else Shr(a / 2, n - 1)
  }

  function Shl(a: nat, n: nat): nat {
    if n == 0 then a else 2 * Shl(a, n - 1)
  }

  /** A 64-bit left shift. */
  function Shl64(a: nat, n: nat): nat {
    Low(Shl(a, n), 64)
  }

  // ------------------------------------------------------------------ bit by bit

  lemma {:induction false} Extensional(a: nat, b: nat)
    requires forall i: nat :: Bit(a, i) == Bit(b, i)
    ensures a == b
    decreases a + b
  {
    assert Bit(a, 0) == Bit(b, 0);
    if a + b > 0 {
      forall i: nat ensures Bit(a / 2, i) == Bit(b / 2, i) {
        assert Bit(a, i + 1) == Bit(b, i + 1);
      }
      Extensional(a / 2, b / 2);
    }
  }

  lemma {:induction false} ZeroBits(i: nat)
    ensures !Bit(0, i)
  {
    if i > 0 { ZeroBits(i - 1); }
  }

  lemma Halves(h: nat, c: nat)
    requires c < 2
    ensures (2 * h + c) / 2 == h && (2 * h + c) % 2 == c
  {
  }

  lemma Parity(a: nat, b: nat)
    ensures (a + b) % 2 == if a % 2 == b % 2 then 0 else 1
  {
  }

  /** One bit at a time. */
  lemma XorUnfold(a: nat, b: nat)
    ensures Xor(a, b) / 2 == Xor(a / 2, b / 2)
    ensures Xor(a, b) % 2 == if a % 2 == b % 2 then 0 else 1
  {
    Parity(a, b);
    Halves(Xor(a / 2, b / 2), (a + b) % 2);
  }

  lemma BitUnfold(a: nat, i: nat)
    ensures Bit(a, i) == if i == 0 then a % 2 == 1 else Bit(a / 2, i - 1)
  {
  }

  lemma {:induction false} XorBit(a: nat, b: nat, i: nat)
    ensures Bit(Xor(a, b), i) == (Bit(a, i) != Bit(b, i))
    decreases i
  {
    hide Xor, Bit;
    XorUnfold(a, b);
    BitUnfold(Xor(a, b), i);
    BitUnfold(a, i);
    BitUnfold(b, i);
    if i > 0 {
      XorBit(a / 2, b / 2, i - 1);
    }
  }

  lemma {:induction false} OrBit(a: nat, b: nat, i: nat)
    ensures Bit(Or(a, b), i) == (Bit(a, i) || Bit(b, i))
    decreases i
  {
    var c := if a % 2 == 1 || b % 2 == 1 then 1 else 0;
    assert Or(a, b) == 2 * Or(a / 2, b / 2) + c;
    Halves(Or(a / 2, b / 2), c);
    if i > 0 {
      OrBit(a / 2, b / 2, i - 1);
    }
  }

  lemma {:induction false} AndBit(a: nat, b: nat, i: nat)
    ensures Bit(And(a, b), i) == (Bit(a, i) && Bit(b, i))
    decreases i
  {
    if a == 0 || b == 0 {
      ZeroBits(i);
    } else {
      var c := if a % 2 == 1 && b % 2 == 1 then 1 else 0;
      Halves(And(a / 2, b / 2), c);
      if i > 0 {
        AndBit(a / 2, b / 2, i - 1);
      }
    }
  }

  lemma {:induction false} ShrBit(a: nat, n: nat, i: nat)
    ensures Bit(Shr(a, n), i) == Bit(a, i + n)
    decreases n
  {
    if n > 0 { ShrBit(a / 2, n - 1, i); }
  }

  lemma {:induction false} LowBit(a: nat, n: nat, i: nat)
    ensures Bit(Low(a, n), i) == (i < n && Bit(a, i))
    decreases n
  {
    if n == 0 {
      ZeroBits(i);
    } else {
      Halves(Low(a / 2, n - 1), a % 2);
      if i > 0 {
        LowBit(a / 2, n - 1, i - 1);
      }
    }
  }

  lemma {:induction false} OnesBit(n: nat, i: nat)
    ensures Bit(Pow2(n) - 1, i) == (i < n)
    decreases n
  {
    if n == 0 {
      ZeroBits(i);
    } else if i > 0 {
      OnesBit(n - 1, i - 1);
      assert (Pow2(n) - 1) / 2 == Pow2(n - 1) - 1;
    }
  }

  // ------------------------------------------------------------------ truncation

  lemma {:induction false} LowBound(a: nat, n: nat)
    ensures Low(a, n) < Pow2(n)
    ensures a < Pow2(n) <==> Low(a, n) == a
  {
    if n > 0 { LowBound(a / 2, n - 1); }
  }

  lemma {:induction false} TimesGap(q: nat, q': nat, d: nat)
    requires q < q'
    ensures q' * d >= q * d + d
    decreases q'
  {
    assert q' * d == (q' - 1) * d + d;
    if q < q' - 1 { TimesGap(q, q' - 1, d); }
  }

  lemma ModUnique(a: nat, q: nat, d: nat, r: nat)
    requires r < d && a == q * d + r
    ensures a % d == r
  {
    var q' := a / d;
    assert q' * d <= a < q' * d + d;
    if q < q' {
      TimesGap(q, q', d);
    } else if q' < q {
      TimesGap(q', q, d);
    }
  }

  lemma {:induction false} Pow2Monotone(m: nat, n: nat)
    requires m <= n
    ensures Pow2(m) <= Pow2(n) && (m < n ==> Pow2(m) < Pow2(n))
    decreases n - m
  {
    if m < n { Pow2Monotone(m, n - 1); }
  }

  lemma Pow2Byte(n: nat)
    ensures Pow2(n + 8) == 256 * Pow2(n)
  {
    assert Pow2(n + 2) == 2 * Pow2(n + 1) == 4 * Pow2(n);
    assert Pow2(n + 4) == 2 * Pow2(n + 3) == 4 * Pow2(n + 2);
    assert Pow2(n + 6) == 2 * Pow2(n + 5) == 4 * Pow2(n + 4);
    assert Pow2(n + 8) == 2 * Pow2(n + 7) == 4 * Pow2(n + 6);
  }

  lemma Pow2Values()
    ensures Pow2(8) == 256 && Pow2(32) == 0x1_0000_0000 && Pow2(55) == 0x80_0000_0000_0000
    ensures Pow2(63) == 0x8000_0000_0000_0000 && Pow2(64) == TWO_64
  {
    Pow2Byte(0);
    Pow2Byte(8);
    Pow2Byte(16);
    Pow2Byte(24);
    assert Pow2(32) == 0x1_0000_0000;
    LargePowers();
  }

  lemma LargePowers()
    requires Pow2(32) == 0x1_0000_0000
    ensures Pow2(55) == 0x80_0000_0000_0000 && Pow2(63) == 0x8000_0000_0000_0000 && Pow2(64) == TWO_64
  {
    Pow2Byte(32);
    Pow2Byte(40);
    assert Pow2(48) == 0x1_0000_0000_0000;
    Pow2Byte(48);
    Pow2Byte(55);
    Pow2Byte(56);
    assert Pow2(56) == 2 * Pow2(55);
  }

  /** Masking with `2^n - 1` keeps the low `n` bits. */
  lemma MaskIsLow(a: nat, n: nat)
    ensures And(a, Pow2(n) - 1) == Low(a, n)
  {
    forall i: nat ensures Bit(And(a, Pow2(n) - 1), i) == Bit(Low(a, n), i) {
      AndBit(a, Pow2(n) - 1, i);
      OnesBit(n, i);
      LowBit(a, n, i);
    }
    Extensional(And(a, Pow2(n) - 1), Low(a, n));
  }

  // ------------------------------------------------------------------ bit length

  function Length(a: nat): nat {
    if a == 0 then 0 else 1 + Length(a / 2)
  }

  lemma {:induction false} LengthBound(a: nat)
    ensures a < Pow2(Length(a))
    ensures a > 0 ==> Pow2(Length(a) - 1) <= a
  {
    if a > 0 { LengthBound(a / 2); }
  }

  lemma {:induction false} AboveLength(a: nat, i: nat)
    requires a < Pow2(i)
    ensures forall j: nat :: i <= j ==> !Bit(a, j)
  {
    LowBound(a, i);
    forall j: nat | i <= j ensures !Bit(a, j) {
      LowBit(a, i, j);
    }
  }

  lemma {:induction false} TopBit(a: nat)
    requires a > 0
    ensures Bit(a, Length(a) - 1)
  {
    if a > 1 { TopBit(a / 2); }
  }

  /** Truncating `2^m - e` to `n` bits wraps it around once. */
  lemma LowUnfold(x: nat, i: nat)
    requires i > 0
    ensures Low(x, i) == x % 2 + 2 * Low(x / 2, i - 1)
  {
  }

  /** A multiple of 2^n does not show in the low `n` bits. */
  lemma {:induction false} LowPeriod(x: nat, k: nat, n: nat)
    ensures Low(x + Shl(k, n), n) == Low(x, n)
    decreases n
  {
    if n > 0 {
      var s := Shl(k, n - 1);
      assert Shl(k, n) == 2 * s;
      LowUnfold(x + 2 * s, n);
      LowUnfold(x, n);
      LowPeriod(x / 2, k, n - 1);
      hide Low, Shl;
      assert (x + 2 * s) / 2 == x / 2 + s && (x + 2 * s) % 2 == x % 2;
    }
  }

  lemma {:induction false} AllButOne(d: nat, n: nat)
    ensures Shl(Pow2(d) - 1, n) == Pow2(d + n) - Pow2(n)
    decreases n
  {
    if n > 0 { AllButOne(d, n - 1); }
  }

  lemma LowWraps(m: nat, n: nat, e: nat)
    requires n <= m && 1 <= e <= Pow2(n)
    ensures e <= Pow2(m) && Low(Pow2(m) - e, n) == Pow2(n) - e
  {
    hide Low, Shl, Pow2;
    Pow2Monotone(n, m);
    AllButOne(m - n, n);
    LowPeriod(Pow2(n) - e, Pow2(m - n) - 1, n);
    LowBound(Pow2(n) - e, n);
  }

  lemma {:induction false} LengthFits(y: nat, n: nat)
    requires y < Pow2(n)
    ensures Length(y) <= n
  {
    if y > 0 {
      LengthFits(y / 2, n - 1);
    }
  }

  // ------------------------------------------------------------------ little-endian bytes

  /** `n` as `width` bytes, lowest first. */
  function ToBytes(n: nat, width: nat): (s: seq<byte>)
    ensures |s| == width
  {
    if width == 0 then [] else [n % 256] + ToBytes(n / 256, width - 1)
  }

  function FromBytes(s: seq<byte>): nat {
    if s == [] then 0 else s[0] + 256 * FromBytes(s[1..])
  }

  lemma {:induction false} FromToBytes(n: nat, width: nat)
    requires n < Pow2(8 * width)
    ensures FromBytes(ToBytes(n, width)) == n
  {
    if width > 0 {
      Pow2Byte(8 * (width - 1));
      FromToBytes(n / 256, width - 1);
    }
  }

  lemma {:induction false} FromBytesBound(s: seq<byte>)
    ensures FromBytes(s) < Pow2(8 * |s|)
  {
    if s != [] {
      Pow2Byte(8 * (|s| - 1));
      FromBytesBound(s[1..]);
    }
  }
}
