/** RabinFPUtil and RabinCtx_t of include/dedup/rabin_poly.h and src/dedup/rabin_poly.cc: a
    table-driven fingerprint of a sliding window, against the remainder of the window's polynomial. */
module RabinPoly {
  import opened Words
  import opened Gf2
  import opened RabinBits

  const FP_POLY: nat := 0xbfe6_b8a5_bf37_8d83

  // ------------------------------------------------------------------ specification

  /** The polynomial of a byte string, first byte at the highest powers. */
  ghost function BytesPoly(s: seq<byte>): nat {
    if s == [] then 0 else Shl(BytesPoly(s[..|s| - 1]), 8) + s[|s| - 1]
  }

  /** The last `w` bytes of a history that started with `w` zero bytes. */
  ghost function LastBytes(history: seq<byte>, w: nat): seq<byte> {
    (seq(w, i => 0) + history)[|history|..]
  }

  /** The direct form: the remainder of the window's polynomial. */
  ghost function Fingerprint(window: seq<byte>): nat {
    Rem(BytesPoly(window), FP_POLY)
  }

  /** What the constructor stores: the remainder of i * x^63 with the stray bit 63 that `p << 8`
      leaves for an odd `i`, and the remainder of i * x^(8 (w - 1)). */
  ghost function TableT(i: nat): nat {
    Or(Rem(CMul(i, Rem(Pow2(63), FP_POLY)), FP_POLY), Shl64(i, 63))
  }

  ghost function TableU(i: nat, w: nat): nat
    requires w >= 1
  {
    Rem(CMul(i, Rem(Shl(1, 8 * (w - 1)), FP_POLY)), FP_POLY)
  }

  // ------------------------------------------------------------------ Append8

  lemma PolyDegree()
    ensures Pow2(63) <= FP_POLY < Pow2(64) && Degree(FP_POLY) == 63
  {
    Pow2Values();
    DegreeIs(FP_POLY, 63);
  }

  lemma {:induction false} LowShl(a: nat, m: nat, n: nat)
    ensures Low(Shl(a, m), m + n) == Shl(Low(a, n), m)
    decreases m
  {
    if m > 0 {
      LowShl(a, m - 1, n);
      Halves(Shl(a, m - 1), 0);
    }
  }

  lemma OrComm(a: nat, b: nat)
    ensures Or(a, b) == Or(b, a)
  {
    forall i: nat ensures Bit(Or(a, b), i) == Bit(Or(b, a), i) {
      OrBit(a, b, i);
      OrBit(b, a, i);
    }
    Extensional(Or(a, b), Or(b, a));
  }

  /** x^63 times `j` is `j` shifted. */
  lemma TimesTop(j: nat, n: nat)
    ensures CMul(j, Shl(1, n)) == Shl(j, n)
    decreases n
  {
    if n == 0 {
      TimesOne(j);
    } else {
      TimesTop(j, n - 1);
      CMulDoubleRight(j, Shl(1, n - 1));
    }
  }

  lemma {:induction false} TimesOne(j: nat)
    ensures CMul(j, 1) == j
  {
    if j > 0 {
      TimesOne(j / 2);
      XorComm(if j % 2 == 1 then 1 else 0, 2 * (j / 2));
      XorLow(j / 2, j % 2, 1);
    }
  }

  lemma {:induction false} ShlIsPow2(n: nat)
    ensures Shl(1, n) == Pow2(n)
  {
    if n > 0 { ShlIsPow2(n - 1); }
  }

  /** The remainder of the top byte at x^63. */
  lemma TopRemainder(j: nat)
    ensures Rem(CMul(j, Rem(Pow2(63), FP_POLY)), FP_POLY) == Rem(Shl(j, 63), FP_POLY)
  {
    hide Rem, CMul, Shl, Pow2;
    ShlIsPow2(63);
    TimesTop(j, 63);
    RemProduct(j, Pow2(63), FP_POLY);
  }

  /** The low bits grow by the lowest bit of what lies above. */
  lemma SplitLow(p: nat, n: nat)
    ensures Low(p, n + 1) == Xor(Shl(Low(Shr(p, n), 1), n), Low(p, n))
  {
    LowGrows(p, n);
    ShrBit(p, n, 0);
    var b := Shr(p, n);
    assert Low(b, 1) == (if Bit(p, n) then 1 else 0) by { assert Low(b, 1) == b % 2 + 2 * Low(b / 2, 0); }
    ShlOfZero(n);
    XorComm(Low(p, n), Shl(Low(b, 1), n));
  }

  /** What `p << 8` keeps of the top byte is its lowest bit, at position 63. */
  lemma ShiftByte(p: nat)
    ensures Shl64(p, 8) == Xor(Shl64(Shr(p, 55), 63), Shl(Low(p, 55), 8)) == Shl(Low(p, 56), 8)
    ensures Shl64(Shr(p, 55), 63) == Shl(Low(Shr(p, 55), 1), 63)
  {
    hide Xor, Shl, Low, Shr;
    var b := Low(Shr(p, 55), 1);
    LowShl(p, 8, 56);
    LowShl(Shr(p, 55), 63, 1);
    SplitLow(p, 55);
    XorShl(Shl(b, 55), Low(p, 55), 8);
    ShlShl(b, 55, 8);
  }

  /** ((s + t) + m) + (s + r) == (t + m) + r */
  lemma StrayBitCancels(s: nat, t: nat, m: nat, r: nat)
    ensures Xor(Xor(Xor(s, t), m), Xor(s, r)) == Xor(Xor(t, m), r)
  {
    hide Xor;
    XorAssoc(s, t, m);
    XorSwap(s, Xor(t, m), s, r);
    XorSelf(s);
    XorZero(Xor(Xor(t, m), r));
  }

  /** `((p << 8) | m) ^ T[p >> 55]`, word operations resolved: the stray bit cancels. */
  lemma Append8Cancels(p: nat, m: nat, r: nat)
    requires m < Pow2(8) && r < Pow2(63)
    ensures Xor(Or(Shl64(p, 8), m), Or(r, Shl64(Shr(p, 55), 63))) == Xor(Xor(Shl(Low(p, 55), 8), m), r)
  {
    hide Xor, Or, Shl, Low, Shr, Pow2;
    var s := Shl64(Shr(p, 55), 63);
    ShiftByte(p);
    XorLow(Low(p, 56), m, 8);
    XorLow(Low(Shr(p, 55), 1), r, 63);
    OrComm(r, s);
    StrayBitCancels(s, Shl(Low(p, 55), 8), m, r);
  }

  lemma {:induction false} ShlAddBound(a: nat, b: nat, m: nat, n: nat)
    requires a < Pow2(m) && b < Pow2(n)
    ensures Shl(a, n) + b < Pow2(m + n)
    decreases n
  {
    if n > 0 { ShlAddBound(a, b / 2, m, n - 1); }
  }

  /** `p * x^8 + m` is the top byte at x^63 plus something already reduced. */
  lemma AppendRemainder(p: nat, m: nat)
    requires m < Pow2(8)
    ensures Rem(Shl(p, 8) + m, FP_POLY) == Xor(Rem(Shl(Shr(p, 55), 63), FP_POLY), Xor(Shl(Low(p, 55), 8), m))
  {
    PolyDegree();
    hide Xor, Shl, Low, Shr, Pow2, Rem, Length;
    var j, l := Shr(p, 55), Low(p, 55);
    LowBound(p, 55);
    HighLow(p, 55);
    XorShl(Shl(j, 55), l, 8);
    ShlShl(j, 55, 8);
    XorLow(p, m, 8);
    XorAssoc(Shl(j, 63), Shl(l, 8), m);
    RemAdd(Shl(j, 63), Xor(Shl(l, 8), m), FP_POLY);
    XorLow(l, m, 8);
    ShlAddBound(l, m, 55, 8);
    RemSmall(Xor(Shl(l, 8), m), FP_POLY);
  }

  /** Append8 (line 131) is reduction of `p * x^8 + m`. */
  lemma Append8Correct(p: nat, m: nat)
    requires p < Pow2(63) && m < 256
    ensures Shr(p, 55) < 256
    ensures Xor(Or(Shl64(p, 8), m), TableT(Shr(p, 55))) == Rem(Shl(p, 8) + m, FP_POLY) < Pow2(63)
  {
    PolyDegree();
    Pow2Values();
    hide Xor, Or, Shl, Low, Shr, Pow2, Rem, CMul, Length;
    ShrBound(p, 63, 55);
    var r := Rem(Shl(Shr(p, 55), 63), FP_POLY);
    TopRemainder(Shr(p, 55));
    RemBound(Shl(Shr(p, 55), 63), FP_POLY);
    RemBound(Shl(p, 8) + m, FP_POLY);
    Append8Cancels(p, m, r);
    AppendRemainder(p, m);
    XorComm(Xor(Shl(Low(p, 55), 8), m), r);
  }

  // ------------------------------------------------------------------ sliding

  lemma OneBytePoly(x: byte)
    ensures BytesPoly([x]) == x
  {
    assert [x][..0] == [];
    ShlOfZero(8);
  }

  lemma {:induction false} BytesPolySplit(x: byte, s: seq<byte>)
    ensures BytesPoly([x] + s) == Xor(Shl(x, 8 * |s|), BytesPoly(s))
    decreases |s|
  {
    hide Xor, Shl, BytesPoly;
    if s == [] {
      BytesPolyOne(x);
    } else {
      var n := |s| - 1;
      assert ([x] + s)[..|s|] == [x] + s[..n];
      BytesPolySplit(x, s[..n]);
      BytesPolyUnfold([x] + s);
      BytesPolyUnfold(s);
      AppendUnder(Shl(x, 8 * n), BytesPoly(s[..n]), s[n]);
      ShlShl(x, 8 * n, 8);
    }
  }

  lemma BytesPolyOne(x: byte)
    ensures BytesPoly([x] + []) == Xor(Shl(x, 0), BytesPoly([]))
  {
    hide Xor, Shl;
    assert [x] + [] == [x];
    OneBytePoly(x);
    ShlZero(x);
    XorZero(x);
  }

  lemma AppendUnder(t: nat, p: nat, m: byte)
    ensures Shl(Xor(t, p), 8) + m == Xor(Shl(t, 8), Shl(p, 8) + m)
  {
    hide Xor, Shl;
    XorShl(t, p, 8);
    Pow2Values();
    XorLow(Xor(t, p), m, 8);
    XorLow(p, m, 8);
    XorAssoc(Shl(t, 8), Shl(p, 8), m);
  }

  lemma BytesPolyUnfold(s: seq<byte>)
    requires s != []
    ensures BytesPoly(s) == Shl(BytesPoly(s[..|s| - 1]), 8) + s[|s| - 1]
  {
  }

  /** Appending a byte to a window of which only the remainder is kept. */
  lemma AppendToWindow(s: seq<byte>, m: byte)
    ensures Rem(Shl(Fingerprint(s), 8) + m, FP_POLY) == Fingerprint(s + [m])
  {
    hide Xor, Shl, Rem, Pow2, BytesPoly;
    Pow2Values();
    assert (s + [m])[..|s|] == s;
    BytesPolyUnfold(s + [m]);
    XorLow(BytesPoly(s), m, 8);
    XorLow(Fingerprint(s), m, 8);
    RemAdd(Shl(BytesPoly(s), 8), m, FP_POLY);
    RemAdd(Shl(Fingerprint(s), 8), m, FP_POLY);
    RemShifted(BytesPoly(s), 8, FP_POLY);
  }

  /** Removing the oldest byte with the second table. */
  lemma DropOldest(x: byte, s: seq<byte>)
    ensures Xor(Fingerprint([x] + s), TableU(x, |s| + 1)) == Fingerprint(s)
  {
    hide Xor, Shl, Rem, CMul, BytesPoly;
    BytesPolySplit(x, s);
    RemAdd(Shl(x, 8 * |s|), BytesPoly(s), FP_POLY);
    TimesTop(x, 8 * |s|);
    RemProduct(x, Shl(1, 8 * |s|), FP_POLY);
    XorComm(TableU(x, |s| + 1), Fingerprint(s));
    XorCancel(Fingerprint(s), TableU(x, |s| + 1));
  }

  lemma LastBytesSlide(history: seq<byte>, w: nat, m: byte)
    requires w >= 1
    ensures |LastBytes(history, w)| == w
    ensures LastBytes(history + [m], w) == LastBytes(history, w)[1..] + [m]
  {
  }

  /** A circular buffer read from its oldest byte. */
  function Unrolled(buf: seq<byte>, pos: nat): seq<byte>
    requires pos < |buf|
  {
    buf[pos + 1..] + buf[..pos + 1]
  }

  const UINT32_MAX: nat := 0xffff_ffff

  /** The fingerprinting context; `history` records the bytes slid in since the last reset. */
  class RabinCtx {
    var curPos: nat
    var circBuf: array<byte>
    var fp: nat
    ghost var history: seq<byte>

    constructor (windowSize: nat)
      ensures fresh(circBuf) && circBuf.Length == windowSize
      ensures forall i :: 0 <= i < windowSize ==> circBuf[i] == 0
      ensures curPos == UINT32_MAX && fp == 0 && history == []
    {
      circBuf := new byte[windowSize](i => 0);
      curPos := UINT32_MAX;
      fp := 0;
      history := [];
    }

    /** The fingerprint is the direct remainder of the last `w` bytes, which the buffer holds. */
    ghost predicate Valid(w: nat)
      reads this, circBuf
    {
      && 1 <= w < UINT32_MAX + 1 && circBuf.Length == w
      && fp == Fingerprint(LastBytes(history, w))
      && (if curPos == UINT32_MAX then circBuf[..] == LastBytes(history, w)
          else curPos < w && Unrolled(circBuf[..], curPos) == LastBytes(history, w))
      && (curPos == UINT32_MAX ==> forall i :: 0 <= i < w ==> circBuf[i] == 0)
    }
  }

  lemma {:induction false} ZerosPoly(s: seq<byte>)
    requires forall i :: 0 <= i < |s| ==> s[i] == 0
    ensures BytesPoly(s) == 0
    decreases |s|
  {
    if s != [] {
      ZerosPoly(s[..|s| - 1]);
      ShlOfZero(8);
    }
  }

  lemma ResetState(buf: seq<byte>, w: nat)
    requires |buf| == w && forall i :: 0 <= i < w ==> buf[i] == 0
    ensures buf == LastBytes([], w) && Fingerprint(LastBytes([], w)) == 0
  {
    ZerosPoly(buf);
    assert buf == LastBytes([], w);
  }

  /** Writing the next slot of the circular buffer moves the window by one. */
  lemma CircularSlide(buf: seq<byte>, pos: nat, pos': nat, m: byte)
    requires pos < |buf| && pos' == (if pos + 1 == |buf| then 0 else pos + 1)
    ensures buf[pos'] == Unrolled(buf, pos)[0]
    ensures Unrolled(buf[pos' := m], pos') == Unrolled(buf, pos)[1..] + [m]
  {
    var b' := buf[pos' := m];
    if pos + 1 < |buf| {
      assert Unrolled(b', pos') == buf[pos + 2..] + (buf[..pos + 1] + [m]);
      assert Unrolled(buf, pos)[1..] == buf[pos + 2..] + buf[..pos + 1];
    } else {
      assert Unrolled(b', pos') == buf[1..] + [m];
      assert Unrolled(buf, pos) == buf;
    }
  }

  class RabinFpUtil {
    const windowSize: nat
    var shift: nat
    const T: array<nat>
    const U: array<nat>

    ghost predicate TOk()
      reads this, T
    {
      T.Length == 256 && shift == 55 && forall i :: 0 <= i < 256 ==> T[i] == TableT(i)
    }

    ghost predicate Valid()
      reads this, T, U
    {
      && 1 <= windowSize <= UINT32_MAX && TOk()
      && U.Length == 256 && forall i :: 0 <= i < 256 ==> U[i] == TableU(i, windowSize)
    }

    /** Append8, lines 130-132. */
    function Append8(p: nat, m: byte): (r: nat)
      requires TOk() && p < Pow2(63)
      reads this, T
      ensures r == Rem(Shl(p, 8) + m, FP_POLY) < Pow2(63)
    {
      Append8Correct(p, m);
      Xor(Or(Shl64(p, 8), m), T[Shr(p, shift)])
    }

    /** The constructor, lines 104-124: the two tables.  A window of 2^32 bytes or more would keep its
        32-bit loop counter from ever reaching the bound. */
    constructor (windowSize: nat)
      requires 1 <= windowSize <= UINT32_MAX
      ensures Valid() && this.windowSize == windowSize && fresh(T) && fresh(U)
    {
      hide Xor, Or, Shl, Low, Shr, Pow2, Rem, CMul, Length, TableT, TableU;
      this.windowSize := windowSize;
      T := new nat[256];
      U := new nat[256];
      new;
      PolyDegree();
      Pow2Values();
      var f := Fls64(FP_POLY);
      var xShift := f - 1;
      shift := xShift - 8;
      TopPower();
      var t1 := PolyMod(0, Shl64(1, xShift), FP_POLY);
      NoHigh(Shl64(1, xShift));
      FillT(t1);
      var sizeShift := SizeShift();
      FillU(sizeShift);
    }

    /** Lines 112-114. */
    method FillT(t1: nat)
      requires T.Length == 256 && shift == 55 && t1 == Rem(Pow2(63), FP_POLY) && t1 < TWO_64
      modifies T
      ensures TOk()
    {
      hide Xor, Or, Shl, Low, Pow2, Rem, CMul, Length;
      var i := 0;
      while i < 256
        invariant 0 <= i <= 256 && forall j :: 0 <= j < i ==> T[j] == TableT(j)
      {
        var r := PolyMMult(i, t1, FP_POLY);
        T[i] := Or(r, Shl64(i, 63));
        i := i + 1;
      }
    }

    /** Lines 116-119. */
    method SizeShift() returns (r: nat)
      requires TOk() && 1 <= windowSize <= UINT32_MAX
      ensures r == Rem(Shl(1, 8 * (windowSize - 1)), FP_POLY) < Pow2(63)
    {
      hide Xor, Or, Shl, Low, Shr, Pow2, Rem, CMul, Length;
      PolyDegree();
      Pow2Values();
      r := 1;
      ShlZero(1);
      RemSmall(1, FP_POLY);
      var i := 1;
      while i < windowSize
        invariant 1 <= i <= windowSize && r == Rem(Shl(1, 8 * (i - 1)), FP_POLY) < Pow2(63)
      {
        RemShifted(Shl(1, 8 * (i - 1)), 8, FP_POLY);
        ShlShl(1, 8 * (i - 1), 8);
        r := Append8(r, 0);
        i := i + 1;
      }
    }

    /** Lines 121-123. */
    method FillU(sizeShift: nat)
      requires U.Length == 256 && 1 <= windowSize && sizeShift < TWO_64
      requires sizeShift == Rem(Shl(1, 8 * (windowSize - 1)), FP_POLY)
      modifies U
      ensures forall i :: 0 <= i < 256 ==> U[i] == TableU(i, windowSize)
    {
      hide Xor, Or, Shl, Low, Pow2, Rem, CMul, Length;
      var i := 0;
      while i < 256
        invariant 0 <= i <= 256 && forall j :: 0 <= j < i ==> U[j] == TableU(j, windowSize)
      {
        var r := PolyMMult(i, sizeShift, FP_POLY);
        U[i] := r;
        i := i + 1;
      }
    }

    /** NewCtx, lines 139-145. */
    method NewCtx() returns (ctx: RabinCtx)
      requires Valid()
      ensures fresh(ctx) && fresh(ctx.circBuf) && ctx.Valid(windowSize) && ctx.history == []
    {
      ctx := new RabinCtx(windowSize);
      ResetState(ctx.circBuf[..], windowSize);
    }

    /** ResetCtx, lines 162-167. */
    method ResetCtx(ctx: RabinCtx)
      requires Valid() && ctx.Valid(windowSize)
      modifies ctx, ctx.circBuf
      ensures Valid() && ctx.Valid(windowSize) && ctx.history == [] && ctx.circBuf == old(ctx.circBuf)
    {
      forall i | 0 <= i < ctx.circBuf.Length {
        ctx.circBuf[i] := 0;
      }
      ctx.curPos := UINT32_MAX;
      ctx.fp := 0;
      ctx.history := [];
      ResetState(ctx.circBuf[..], windowSize);
    }

    /** SlideOneByte, lines 177-186: one byte enters the window and the oldest leaves it. */
    method SlideOneByte(ctx: RabinCtx, inputByte: byte) returns (r: nat)
      requires Valid() && ctx.Valid(windowSize)
      modifies ctx, ctx.circBuf
      ensures Valid() && ctx.Valid(windowSize) && ctx.circBuf == old(ctx.circBuf)
      ensures ctx.history == old(ctx.history) + [inputByte]
      ensures r == ctx.fp == Fingerprint(LastBytes(ctx.history, windowSize)) < Pow2(63)
    {
      hide Xor, Or, Shl, Low, Shr, Pow2, Rem, CMul, Length, TableT, TableU, LastBytes, BytesPoly, Unrolled;
      ghost var window := LastBytes(ctx.history, windowSize);
      ghost var pos := if ctx.curPos == UINT32_MAX then windowSize - 1 else ctx.curPos;
      ghost var buf := ctx.circBuf[..];
      LastBytesSlide(ctx.history, windowSize, inputByte);
      UnrolledAtEnd(buf);
      ctx.curPos := if ctx.curPos == UINT32_MAX then 0 else ctx.curPos + 1;
      if ctx.curPos >= windowSize {
        ctx.curPos := 0;
      }
      CircularSlide(buf, pos, ctx.curPos, inputByte);
      var om := ctx.circBuf[ctx.curPos];
      ctx.circBuf[ctx.curPos] := inputByte;
      assert ctx.circBuf[..] == buf[ctx.curPos := inputByte];
      assert window == [om] + window[1..];
      DropOldest(om, window[1..]);
      PolyDegree();
      RemBound(BytesPoly(window[1..]), FP_POLY);
      AppendToWindow(window[1..], inputByte);
      ctx.fp := Append8(Xor(ctx.fp, U[om]), inputByte);
      ctx.history := ctx.history + [inputByte];
      r := ctx.fp;
    }
  }

  lemma UnrolledAtEnd(buf: seq<byte>)
    requires |buf| >= 1
    ensures Unrolled(buf, |buf| - 1) == buf
  {
  }

  lemma TopPower()
    ensures Shl64(1, 63) == Pow2(63)
  {
    ShlIsPow2(63);
    Pow2Values();
    LowBound(Pow2(63), 64);
  }

  /** The modulus told by one remainder: x^63 leaves the polynomial without its leading term. */
  lemma TopPowerRemainder()
    ensures Rem(Pow2(63), FP_POLY) == 0x3fe6_b8a5_bf37_8d83
  {
    var r := 0x3fe6_b8a5_bf37_8d83;
    Pow2Values();
    PolyDegree();
    ShlIsPow2(63);
    XorLow(1, r, 63);
    XorCancel(Pow2(63), r);
    CMulOne(FP_POLY);
    RemUnique(Pow2(63), FP_POLY, r);
  }

  lemma {:induction false} ZerosAppended(s: seq<byte>, n: nat)
    ensures BytesPoly(s + seq(n, i => 0)) == Shl(BytesPoly(s), 8 * n)
  {
    var longer := s + seq(n, i => 0);
    if n == 0 {
      assert longer == s;
    } else {
      assert longer[..|longer| - 1] == s + seq(n - 1, i => 0);
      ZerosAppended(s, n - 1);
      ShlShl(BytesPoly(s), 8 * (n - 1), 8);
      hide Shl;
    }
  }

  /** The fingerprint of the byte 128 and seven zero bytes. */
  lemma KnownFingerprint()
    ensures Fingerprint([128, 0, 0, 0, 0, 0, 0, 0]) == 0x3fe6_b8a5_bf37_8d83
  {
    hide Shl, Rem, Pow2, BytesPoly;
    TopPowerRemainder();
    ZerosAppended([128], 7);
    TopByte();
    ShlShl(1, 7, 56);
    ShlIsPow2(63);
    assert [128] + seq(7, i => 0) == [128, 0, 0, 0, 0, 0, 0, 0];
  }

  lemma TopByte()
    ensures BytesPoly([128]) == 128 == Shl(1, 7)
  {
    assert [128][..0] == [];
    ShlOfZero(8);
    assert Shl(1, 3) == 8 && Shl(Shl(1, 3), 4) == 128;
    ShlShl(1, 3, 4);
  }
}
