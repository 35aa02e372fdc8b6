/** What the 64-bit operations and the byte order mean, told by single bits and by arithmetic modulo
    2^64 instead of the functions that compute them. */
module WordLaws {
  import opened Words
  import opened Gf2
  import opened XxHash64

  // ------------------------------------------------------------------ shifts and rotations

  lemma {:induction false} ShlBit(x: nat, n: nat, i: nat)
    ensures Bit(Shl(x, n), i) == (i >= n && Bit(x, i - n))
    decreases n
  {
    if n > 0 && i > 0 { ShlBit(x, n - 1, i - 1); }
  }

  /** Bit `i` of a word rotated left by `b` is the bit `b` places below it, going round at 64. */
  lemma RotateLeftBit(x: Word, b: nat, i: nat)
    requires 1 <= b <= 63 && i < 64
    ensures Bit(RotateLeft(x, b), i) == Bit(x, if i >= b then i - b else i + 64 - b)
  {
    Pow2Values();
    AboveLength(x, 64);
    hide Bit, Or, Shl, Shr, Low, Pow2;
    OrBit(Shl64(x, b), Shr(x, 64 - b), i);
    LowBit(Shl(x, b), 64, i);
    ShlBit(x, b, i);
    ShrBit(x, 64 - b, i);
  }

  /** Rotating on by the rest of the word gives it back. */
  lemma RotateBack(x: Word, b: nat)
    requires 1 <= b <= 63
    ensures RotateLeft(RotateLeft(x, b), 64 - b) == x
  {
    var z := RotateLeft(RotateLeft(x, b), 64 - b);
    hide Bit, RotateLeft;
    forall i: nat ensures Bit(z, i) == Bit(x, i) {
      if i < 64 { RotatedTwice(x, b, i); } else { NoBitAbove(x, i); NoBitAbove(z, i); }
    }
    Extensional(z, x);
  }

  lemma NoBitAbove(x: Word, i: nat)
    requires i >= 64
    ensures !Bit(x, i)
  {
    Pow2Values();
    AboveLength(x, 64);
  }

  lemma RotatedTwice(x: Word, b: nat, i: nat)
    requires 1 <= b <= 63 && i < 64
    ensures Bit(RotateLeft(RotateLeft(x, b), 64 - b), i) == Bit(x, i)
  {
    hide Bit, RotateLeft;
    RotateLeftBit(RotateLeft(x, b), 64 - b, i);
    RotateLeftBit(x, b, if i >= 64 - b then i - (64 - b) else i + b);
  }

  /** Exclusive or and the right shift of words, bit by bit. */
  lemma XorShiftBit(a: Word, n: nat, i: nat)
    ensures Bit(XorW(a, ShrW(a, n)), i) == (Bit(a, i) != Bit(a, i + n))
  {
    hide Bit, Xor, Shr;
    XorBit(a, Shr(a, n), i);
    ShrBit(a, n, i);
  }

  // ------------------------------------------------------------------ arithmetic modulo 2^64

  /** Sums and differences of words are those of the numbers modulo 2^64, and undo each other. */
  lemma WrapsAround(a: Word, b: Word)
    ensures Add64(a, b) == a + b || Add64(a, b) + TWO_64 == a + b
    ensures Add64(Sub64(a, b), b) == a && Sub64(Add64(a, b), b) == a
  {
  }

  /** The product of words differs from that of the numbers by a multiple of 2^64. */
  lemma ProductWraps(a: Word, b: Word) returns (q: nat)
    ensures a * b == q * TWO_64 + Mul(a, b)
  {
    q := a * b / TWO_64;
  }

  // ------------------------------------------------------------------ lowest byte first

  lemma {:induction false} ShrAgain(x: nat, m: nat, n: nat)
    ensures Shr(Shr(x, m), n) == Shr(x, m + n)
    decreases m
  {
    if m > 0 { ShrAgain(x / 2, m - 1, n); }
  }

  /** A number cut into its high part and its low `n` bits. */
  lemma {:induction false} CutAt(q: nat, r: nat, n: nat)
    requires r < Pow2(n)
    ensures Shr(Shl(q, n) + r, n) == q && Low(Shl(q, n) + r, n) == r
    decreases n
  {
    if n > 0 {
      CutAt(q, r / 2, n - 1);
      var s := Shl(q, n - 1);
      assert Shl(q, n) == 2 * s;
      hide Shl;
      assert (2 * s + r) / 2 == s + r / 2 && (2 * s + r) % 2 == r % 2;
    }
  }

  lemma {:induction false} ShlIsProduct(q: nat, n: nat)
    ensures Shl(q, n) == q * Pow2(n)
  {
    if n > 0 { ShlIsProduct(q, n - 1); }
  }

  lemma ShrByte(x: nat)
    ensures Shr(x, 8) == x / 256 && Low(x, 8) == x % 256
  {
    CutAt(x / 256, x % 256, 8);
    ShlIsProduct(x / 256, 8);
    Pow2Values();
  }

  /** The `i`-th lowest eight bits, one byte further down in `n / 256`. */
  lemma NextByte(n: nat, i: nat)
    ensures Low(Shr(n, 8 * i), 8) == if i == 0 then n % 256 else Low(Shr(n / 256, 8 * (i - 1)), 8)
  {
    hide Low, Shr;
    ShrByte(n);
    if i > 0 {
      ShrAgain(n, 8, 8 * (i - 1));
    } else {
      ShrNone(n);
    }
  }

  lemma ShrNone(n: nat)
    ensures Shr(n, 0) == n
  {
  }

  /** Byte `i` written is the `i`-th lowest eight bits of the number. */
  lemma {:induction false} ToBytesAt(n: nat, width: nat, i: nat)
    requires i < width
    ensures ToBytes(n, width)[i] == Low(Shr(n, 8 * i), 8)
    decreases width
  {
    hide Low, Shr;
    NextByte(n, i);
    if i > 0 { ToBytesAt(n / 256, width - 1, i - 1); }
  }

  /** Byte `i` read ends up as the `i`-th lowest eight bits of the number. */
  lemma {:induction false} FromBytesAt(s: seq<byte>, i: nat)
    requires i < |s|
    ensures Low(Shr(FromBytes(s), 8 * i), 8) == s[i]
    decreases s
  {
    hide Low, Shr;
    FromBytesHalf(s);
    hide FromBytes;
    NextByte(FromBytes(s), i);
    if i > 0 { FromBytesAt(s[1..], i - 1); }
  }

  lemma FromBytesHalf(s: seq<byte>)
    requires s != []
    ensures FromBytes(s) / 256 == FromBytes(s[1..]) && FromBytes(s) % 256 == s[0]
  {
  }
}
