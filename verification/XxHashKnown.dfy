/** Published values of XXH64 with seed 0, worked out from the definition: they fix every constant, every
    rotation and the order of the steps. */
module XxHashKnown {
  import opened Words
  import opened Gf2
  import opened RabinBits
  import opened WordLaws
  import opened XxHash64

  // ------------------------------------------------------------------ exclusive or, byte by byte

  function Val(x: bv8): (r: nat)
    ensures r < 256
  {
    x as nat
  }

  lemma ByteHalf(x: bv8)
    ensures Val(x) / 2 == Val(x >> 1)
  {
  }

  lemma ByteOdd(x: bv8)
    ensures Val(x) % 2 == if x & 1 == 1 then 1 else 0
  {
  }

  lemma ByteXor(x: bv8, y: bv8)
    ensures (x ^ y) >> 1 == (x >> 1) ^ (y >> 1)
    ensures (x ^ y) & 1 == 1 <==> (x & 1 == 1) != (y & 1 == 1)
    ensures Val(x) == 0 == Val(y) ==> Val(x ^ y) == 0
  {
  }

  /** Exclusive or of two bytes is that of bit-vectors. */
  lemma {:induction false} XorOfBytes(x: bv8, y: bv8)
    ensures Xor(Val(x), Val(y)) == Val(x ^ y)
    decreases Val(x) + Val(y)
  {
    hide Val, Xor;
    ByteXor(x, y);
    if Val(x) + Val(y) > 0 {
      ByteHalf(x);
      ByteHalf(y);
      ByteHalf(x ^ y);
      ByteOdd(x);
      ByteOdd(y);
      ByteOdd(x ^ y);
      XorOfBytes(x >> 1, y >> 1);
      XorUnfold(Val(x), Val(y));
    } else {
      XorZero(0);
    }
  }

  lemma XorJoin(a: nat, b: nat, x: bv8, y: bv8)
    ensures Xor(256 * a + Val(x), 256 * b + Val(y)) == 256 * Xor(a, b) + Val(x ^ y)
  {
    hide *;
    Joined(a, Val(x));
    Joined(b, Val(y));
    XorSwap(Shl(a, 8), Val(x), Shl(b, 8), Val(y));
    XorShl(a, b, 8);
    XorOfBytes(x, y);
    Joined(Xor(a, b), Val(x ^ y));
  }

  /** A byte appended to a number. */
  lemma Joined(a: nat, r: nat)
    requires r < 256
    ensures 256 * a + r == Xor(Shl(a, 8), r)
  {
    hide Xor, Shl, Or;
    ShlIsProduct(a, 8);
    Pow2Values();
    XorLow(a, r, 8);
  }

  /** Four bytes, highest first. */
  function Four(a: bv8, b: bv8, c: bv8, d: bv8): (r: nat)
    ensures r < 0x1_0000_0000
  {
    0x100_0000 * Val(a) + 0x1_0000 * Val(b) + 0x100 * Val(c) + Val(d)
  }

  lemma XorFour(h: nat, k: nat, a: bv8, b: bv8, c: bv8, d: bv8, a': bv8, b': bv8, c': bv8, d': bv8)
    ensures Xor(0x1_0000_0000 * h + Four(a, b, c, d), 0x1_0000_0000 * k + Four(a', b', c', d')) ==
      0x1_0000_0000 * Xor(h, k) + Four(a ^ a', b ^ b', c ^ c', d ^ d')
  {
    hide Xor, Val;
    var h1, k1 := 0x100 * h + Val(a), 0x100 * k + Val(a');
    var h2, k2 := 0x100 * h1 + Val(b), 0x100 * k1 + Val(b');
    XorJoin(h, k, a, a');
    XorJoin(h1, k1, b, b');
    XorJoin(h2, k2, c, c');
    XorJoin(0x100 * h2 + Val(c), 0x100 * k2 + Val(c'), d, d');
  }

  /** Exclusive or of two words, from their bytes. */
  lemma XorAt(a: bv8, b: bv8, c: bv8, d: bv8, e: bv8, f: bv8, g: bv8, h: bv8,
              a': bv8, b': bv8, c': bv8, d': bv8, e': bv8, f': bv8, g': bv8, h': bv8)
    ensures XorW(0x1_0000_0000 * Four(a, b, c, d) + Four(e, f, g, h), 0x1_0000_0000 * Four(a', b', c', d') + Four(e', f', g', h')) ==
      0x1_0000_0000 * Four(a ^ a', b ^ b', c ^ c', d ^ d') + Four(e ^ e', f ^ f', g ^ g', h ^ h')
  {
    hide Xor, Four;
    XorZero(0);
    XorFour(0, 0, a, b, c, d, a', b', c', d');
    XorFour(Four(a, b, c, d), Four(a', b', c', d'), e, f, g, h, e', f', g', h');
  }

  // ------------------------------------------------------------------ products, shifts and rotations

  lemma MulAt(a: Word, b: Word, q: nat, r: Word)
    requires a * b == q * TWO_64 + r
    ensures Mul(a, b) == r
  {
    ModUnique(a * b, q, TWO_64, r);
  }

  lemma ShiftAt(n: nat, p: nat, q: nat, r: nat)
    requires p == Pow2(n) && r < p && q * p + r < TWO_64
    ensures ShrW(q * p + r, n) == q
  {
    CutAt(q, r, n);
    ShlIsProduct(q, n);
  }

  lemma RotateAt(b: nat, p: nat, p': nat, h: nat, l: nat)
    requires 1 <= b <= 63 && p == Pow2(b) && p' == Pow2(64 - b) && h < p && l < p' && h * p' + l < TWO_64
    ensures RotateLeft(h * p' + l, b) == l * p + h
  {
    hide Or, Shl, Shr, Low, Pow2;
    ShlIsProduct(h, 64 - b);
    CutAt(h, l, 64 - b);
    RotatedHigh(h, l, b);
    XorLow(l, h, b);
    ShlIsProduct(l, b);
  }

  /** The high part leaves the word, the low part moves up. */
  lemma RotatedHigh(h: nat, l: nat, b: nat)
    requires 1 <= b <= 63 && l < Pow2(64 - b)
    ensures Shl64(Shl(h, 64 - b) + l, b) == Shl(l, b)
  {
    hide Shl, Low, Pow2;
    ShlAdd(Shl(h, 64 - b), l, b);
    ShlShl(h, 64 - b, b);
    ShlBelow(l, 64 - b, b);
    CutAt(h, Shl(l, b), 64);
  }

  lemma {:induction false} ShlAdd(x: nat, y: nat, n: nat)
    ensures Shl(x + y, n) == Shl(x, n) + Shl(y, n)
  {
    if n > 0 { ShlAdd(x, y, n - 1); }
  }

  lemma {:induction false} ShlBelow(x: nat, m: nat, n: nat)
    requires x < Pow2(m)
    ensures Shl(x, n) < Pow2(m + n)
  {
    if n > 0 { ShlBelow(x, m, n - 1); }
  }

  /** The powers of two the rotations and shifts need. */
  lemma Powers()
    ensures Pow2(1) == 0x2 && Pow2(7) == 0x80 && Pow2(11) == 0x800 && Pow2(12) == 0x1000
    ensures Pow2(18) == 0x4_0000 && Pow2(23) == 0x80_0000 && Pow2(27) == 0x800_0000
    ensures Pow2(29) == 0x2000_0000 && Pow2(31) == 0x8000_0000 && Pow2(32) == 0x1_0000_0000 && Pow2(33) == 0x2_0000_0000
    ensures Pow2(37) == 0x20_0000_0000 && Pow2(41) == 0x200_0000_0000 && Pow2(46) == 0x4000_0000_0000
    ensures Pow2(52) == 0x10_0000_0000_0000 && Pow2(53) == 0x20_0000_0000_0000
    ensures Pow2(57) == 0x200_0000_0000_0000 && Pow2(63) == 0x8000_0000_0000_0000
  {
    LowPowers();
    hide Pow2;
    Pow2Byte(1); Pow2Byte(9); Pow2Byte(17); Pow2Byte(25); Pow2Byte(33); Pow2Byte(41); Pow2Byte(49);
    Pow2Byte(2); Pow2Byte(10);
    Pow2Byte(3); Pow2Byte(11); Pow2Byte(19);
    Pow2Byte(4); Pow2Byte(12); Pow2Byte(20); Pow2Byte(28); Pow2Byte(36); Pow2Byte(44);
    Pow2Byte(5); Pow2Byte(13); Pow2Byte(21); Pow2Byte(29); Pow2Byte(37); Pow2Byte(45);
    Pow2Byte(6); Pow2Byte(14); Pow2Byte(22); Pow2Byte(30); Pow2Byte(38);
    Pow2Byte(7); Pow2Byte(15); Pow2Byte(23);
    Pow2Values();
  }

  lemma LowPowers()
    ensures Pow2(1) == 2 && Pow2(2) == 4 && Pow2(3) == 8 && Pow2(4) == 16 && Pow2(5) == 32 && Pow2(6) == 64 && Pow2(7) == 128
  {
    assert Pow2(2) == 4 && Pow2(4) == 16;
  }

  /** A round on one lane. */
  lemma SingleAt(previous: Word, input: Word, q: nat, m: Word, h: nat, l: nat, q': nat, r: Word)
    requires input * 14029467366897019727 == q * TWO_64 + m && Add64(previous, m) == h * 0x2_0000_0000 + l
    requires h < 0x8000_0000 && l < 0x2_0000_0000 && (l * 0x8000_0000 + h) * 11400714785074694791 == q' * TWO_64 + r
    ensures ProcessSingle(previous, input) == r
  {
    hide Mul, RotateLeft, Pow2;
    Powers();
    MulAt(input, PRIME2, q, m);
    RotateAt(31, 0x8000_0000, 0x2_0000_0000, h, l);
    MulAt(l * 0x8000_0000 + h, PRIME1, q', r);
  }

  // ------------------------------------------------------------------ the lanes of a message

  lemma FromBytesAt(s: seq<byte>, i: nat)
    requires i < |s|
    ensures FromBytes(s[i..]) == s[i] + 0x100 * FromBytes(s[i + 1..])
  {
    assert s[i..][1..] == s[i + 1..];
  }

  function FourBytes(a: nat, b: nat, c: nat, d: nat): nat {
    a + 0x100 * b + 0x1_0000 * c + 0x100_0000 * d
  }

  lemma LittleFour(s: seq<byte>)
    requires |s| == 4
    ensures Little(s) == FourBytes(s[0], s[1], s[2], s[3])
  {
    hide FromBytes;
    FromBytesAt(s, 0);
    FromBytesAt(s, 1);
    FromBytesAt(s, 2);
    FromBytesAt(s, 3);
    assert s[0..] == s && s[4..] == [];
    NoBytes();
  }

  lemma NoBytes()
    ensures FromBytes([]) == 0
  {
  }

  lemma LittleEight(s: seq<byte>)
    requires |s| == 8
    ensures Little(s) == FourBytes(s[0], s[1], s[2], s[3]) + 0x1_0000_0000 * FourBytes(s[4], s[5], s[6], s[7])
  {
    hide FromBytes;
    FromBytesAt(s, 0);
    FromBytesAt(s, 1);
    FromBytesAt(s, 2);
    FromBytesAt(s, 3);
    LittleFour(s[4..]);
    assert s[0..] == s;
  }

  lemma Lane(a: byte, b: byte, c: byte, d: byte, e: byte, f: byte, g: byte, h: byte)
    ensures Little([a, b, c, d, e, f, g, h]) == FourBytes(a, b, c, d) + 0x1_0000_0000 * FourBytes(e, f, g, h)
  {
    LittleEight([a, b, c, d, e, f, g, h]);
  }

  lemma HalfLane(a: byte, b: byte, c: byte, d: byte)
    ensures Little([a, b, c, d]) == FourBytes(a, b, c, d)
  {
    LittleFour([a, b, c, d]);
  }

  /** A stripe of four lanes. */
  function StripeOf(a: Accumulators, l1: Word, l2: Word, l3: Word, l4: Word): Accumulators {
    Accumulators(ProcessSingle(a.a1, l1), ProcessSingle(a.a2, l2), ProcessSingle(a.a3, l3), ProcessSingle(a.a4, l4))
  }

  // ------------------------------------------------------------------ "The quick brown fox jumps over the lazy dog."

  const LANE1: seq<byte> := [84, 104, 101, 32, 113, 117, 105, 99]
  const LANE2: seq<byte> := [107, 32, 98, 114, 111, 119, 110, 32]
  const LANE3: seq<byte> := [102, 111, 120, 32, 106, 117, 109, 112]
  const LANE4: seq<byte> := [115, 32, 111, 118, 101, 114, 32, 116]
  const LANE5: seq<byte> := [104, 101, 32, 108, 97, 122, 121, 32]
  const LANE6: seq<byte> := [100, 111, 103, 46]
  const STRIPE: seq<byte> := LANE1 + LANE2 + LANE3 + LANE4
  const REST: seq<byte> := LANE5 + LANE6
  const FOX: seq<byte> := STRIPE + REST

  lemma Between(a: seq<byte>, b: seq<byte>, c: seq<byte>)
    ensures (a + b + c)[|a|..|a| + |b|] == b
  {
  }

  lemma LanesJoined(a: seq<byte>, b: seq<byte>, c: seq<byte>, d: seq<byte>)
    requires |a| == |b| == |c| == |d| == 8
    ensures var s := a + b + c + d; s[0..8] == a && s[8..16] == b && s[16..24] == c && s[24..32] == d
  {
    Between([], a, b + c + d);
    Between(a, b, c + d);
    Between(a + b, c, d);
    Between(a + b + c, d, []);
    assert [] + a + (b + c + d) == a + b + c + d == a + b + (c + d) == a + b + c + d + [];
  }

  lemma CutAfter(a: seq<byte>, b: seq<byte>)
    ensures (a + b)[..|a|] == a && (a + b)[|a|..] == b && b[|b|..] == []
  {
  }

  lemma FirstLanes()
    ensures Little(LANE1) == 0x6369_7571_2065_6854 && Little(LANE2) == 0x206e_776f_7262_206b
  {
    hide Little;
    Lane(84, 104, 101, 32, 113, 117, 105, 99);
    Lane(107, 32, 98, 114, 111, 119, 110, 32);
  }

  lemma LaterLanes()
    ensures Little(LANE3) == 0x706d_756a_2078_6f66 && Little(LANE4) == 0x7420_7265_766f_2073
  {
    hide Little;
    Lane(102, 111, 120, 32, 106, 117, 109, 112);
    Lane(115, 32, 111, 118, 101, 114, 32, 116);
  }

  lemma LastLanes()
    ensures Little(LANE5) == 0x2079_7a61_6c20_6568 && Little(LANE6) == 0x2e67_6f64
  {
    hide Little;
    Lane(104, 101, 32, 108, 97, 122, 121, 32);
    HalfLane(100, 111, 103, 46);
  }

  lemma FoxStripe()
    ensures StripeOf(Initial(0), 0x6369_7571_2065_6854, 0x206e_776f_7262_206b, 0x706d_756a_2078_6f66, 0x7420_7265_766f_2073) ==
      Accumulators(0x1bf9_61d2_8f3a_149d, 0xbd1_8aa2_ee4d_901f, 0x9986_f59c_c4fe_6078, 0x79f8_0495_cc7e_bc76)
  {
    hide Mul, RotateLeft, ProcessSingle;
    SingleAt(0x60ea_27ee_adc0_b5d6, 0x6369_7571_2065_6854, 0x4b9b_4dfc_d0a0_ff25, 0xd173_5189_47a0_4dec, 0x192e_bcbb, 0x1_f561_03c2, 0x9aef_4340_1979_0ce4, 0x1bf9_61d2_8f3a_149d);
    SingleAt(0xc2b2_ae3d_27d4_eb4f, 0x206e_776f_7262_206b, 0x18aa_5964_54b7_e794, 0xe042_4916_85a6_3a05, 0x517a_7ba9, 0x1_ad7b_2554, 0x84b7_8954_249c_4903, 0xbd1_8aa2_ee4d_901f);
    SingleAt(0x0, 0x706d_756a_2078_6f66, 0x5581_6b9b_51c7_2363, 0xecba_c391_5de5_027a, 0x765d_61c8, 0x1_5de5_027a, 0x6c1f_9507_a388_9903, 0x9986_f59c_c4fe_6078);
    SingleAt(0x61c8_864e_7a14_3579, 0x7420_7265_766f_2073, 0x5851_a44a_39da_4f92, 0x4696_5866_f350_947d, 0x542f_6f5a, 0x1_6d64_c9f6, 0x70e9_b17f_d299_ee3c, 0x79f8_0495_cc7e_bc76);
  }

  lemma FoxRotations()
    ensures var a := Accumulators(0x1bf9_61d2_8f3a_149d, 0xbd1_8aa2_ee4d_901f, 0x9986_f59c_c4fe_6078, 0x79f8_0495_cc7e_bc76);
      Add64(Add64(Add64(RotateLeft(a.a1, 1), RotateLeft(a.a2, 7)), RotateLeft(a.a3, 12)), RotateLeft(a.a4, 18)) == 0xa269_1367_1d1d_aa37
  {
    hide RotateLeft, Pow2;
    Powers();
    RotateAt(1, 0x2, 0x8000_0000_0000_0000, 0x0, 0x1bf9_61d2_8f3a_149d);
    RotateAt(7, 0x80, 0x200_0000_0000_0000, 0x5, 0x1d1_8aa2_ee4d_901f);
    RotateAt(12, 0x1000, 0x10_0000_0000_0000, 0x998, 0x6_f59c_c4fe_6078);
    RotateAt(18, 0x4_0000, 0x4000_0000_0000, 0x1_e7e0, 0x495_cc7e_bc76);
  }

  lemma FoxMerge1()
    ensures MergeAccumulator(0xa269_1367_1d1d_aa37, 0x1bf9_61d2_8f3a_149d) == 0x7390_8329_0851_e7d7
  {
    hide Mul, XorW, RotateLeft, ShrW, ProcessSingle, Xor, Pow2;
    SingleAt(0x0, 0x1bf9_61d2_8f3a_149d, 0x1546_8291_c435_48a9, 0x8ef5_8e1a_80dc_7b73, 0x477a_c70d, 0x80dc_7b73, 0x27d2_0068_b521_bd33, 0xe2c7_d07a_8cbe_39db);
    XorAt(0xa2, 0x69, 0x13, 0x67, 0x1d, 0x1d, 0xaa, 0x37, 0xe2, 0xc7, 0xd0, 0x7a, 0x8c, 0xbe, 0x39, 0xdb);
    MulAt(0x40ae_c31d_91a3_93ec, 0x9e37_79b1_85eb_ca87, 0x27f9_e0b7_a021_7faf, 0xeda4_b8b1_459f_3974);
  }

  lemma FoxMerge2()
    ensures MergeAccumulator(0x7390_8329_0851_e7d7, 0xbd1_8aa2_ee4d_901f) == 0xcd0c_5c92_7e43_3bf7
  {
    hide Mul, XorW, RotateLeft, ShrW, ProcessSingle, Xor, Pow2;
    SingleAt(0x0, 0xbd1_8aa2_ee4d_901f, 0x8fd_0acd_1ce0_0073, 0xd526_eb9b_cfe7_ee91, 0x6a93_75cd, 0x1_cfe7_ee91, 0x8f5a_d64c_4a58_3c9a, 0x6c42_39d9_b2e5_e11b);
    XorAt(0x73, 0x90, 0x83, 0x29, 0x08, 0x51, 0xe7, 0xd7, 0x6c, 0x42, 0x39, 0xd9, 0xb2, 0xe5, 0xe1, 0x1b);
    MulAt(0x1fd2_baf0_bab4_06cc, 0x9e37_79b1_85eb_ca87, 0x13aa_f4c7_68a8_0c4d, 0x4720_921a_bb90_8d94);
  }

  lemma FoxMerge3()
    ensures MergeAccumulator(0xcd0c_5c92_7e43_3bf7, 0x9986_f59c_c4fe_6078) == 0x962f_3f76_b777_ea40
  {
    hide Mul, XorW, RotateLeft, ShrW, ProcessSingle, Xor, Pow2;
    SingleAt(0x0, 0x9986_f59c_c4fe_6078, 0x74c3_6e75_fc46_1286, 0x6591_2428_786d_ed08, 0x32c8_9214, 0x786d_ed08, 0x2536_f894_49c3_a4d1, 0xbd41_959f_8764_d08c);
    XorAt(0xcd, 0x0c, 0x5c, 0x92, 0x7e, 0x43, 0x3b, 0xf7, 0xbd, 0x41, 0x95, 0x9f, 0x87, 0x64, 0xd0, 0x8c);
    MulAt(0x704d_c90d_f927_eb7b, 0x9e37_79b1_85eb_ca87, 0x4568_582f_7656_a20b, 0x1043_74fe_f4c5_3bdd);
  }

  lemma FoxMerge4()
    ensures MergeAccumulator(0x962f_3f76_b777_ea40, 0x79f8_0495_cc7e_bc76) == 0x9007_c00f_586b_faf0
  {
    hide Mul, XorW, RotateLeft, ShrW, ProcessSingle, Xor, Pow2;
    SingleAt(0x0, 0x79f8_0495_cc7e_bc76, 0x5cc3_14f0_6b51_5dd3, 0x424a_b0ba_7dd4_7a6a, 0x2125_585d, 0x7dd4_7a6a, 0x26e2_3402_48ab_3e8e, 0xbf61_14a9_60c9_fb0b);
    XorAt(0x96, 0x2f, 0x3f, 0x76, 0xb7, 0x77, 0xea, 0x40, 0xbf, 0x61, 0x14, 0xa9, 0x60, 0xc9, 0xfb, 0x0b);
    MulAt(0x294e_2bdf_d7be_114b, 0x9e37_79b1_85eb_ca87, 0x1987_3282_2ba3_737a, 0xa1b_f597_95b9_4c8d);
  }

  lemma FoxConverge()
    ensures Converge(Accumulators(0x1bf9_61d2_8f3a_149d, 0xbd1_8aa2_ee4d_901f, 0x9986_f59c_c4fe_6078, 0x79f8_0495_cc7e_bc76)) == 0x9007_c00f_586b_faf0
  {
    hide MergeAccumulator, RotateLeft, Add64;
    FoxRotations();
    FoxMerge1();
    FoxMerge2();
    FoxMerge3();
    FoxMerge4();
  }

  lemma FoxEight()
    ensures EatEight(0x9007_c00f_586b_fb1c, 0x2079_7a61_6c20_6568) == 0xa272_f94f_f173_b9ce
  {
    hide Mul, XorW, RotateLeft, ShrW, ProcessSingle, Xor, Pow2;
    Powers();
    SingleAt(0x0, 0x2079_7a61_6c20_6568, 0x18b2_b94f_3edb_a02b, 0xd3ef_8660_ed35_c318, 0x69f7_c330, 0xed35_c318, 0x494d_4adc_924e_b40d, 0xaf78_5fb1_7ebb_ce50);
    XorAt(0x90, 0x07, 0xc0, 0x0f, 0x58, 0x6b, 0xfb, 0x1c, 0xaf, 0x78, 0x5f, 0xb1, 0x7e, 0xbb, 0xce, 0x50);
    RotateAt(27, 0x800_0000, 0x20_0000_0000, 0x1fb_fcfd, 0x1e_26d0_354c);
    MulAt(0xf136_81aa_61fb_fcfd, 0x9e37_79b1_85eb_ca87, 0x9513_e967_0c3d_3fa0, 0x1c87_2ed8_2ec1_0b6b);
  }

  lemma FoxFour()
    ensures EatFour(0xa272_f94f_f173_b9ce, 0x2e67_6f64) == 0x15e0_1d5c_13b1_02ec
  {
    hide Mul, XorW, RotateLeft, ShrW, ProcessSingle, Xor, Pow2;
    Powers();
    MulAt(0x2e67_6f64, 0x9e37_79b1_85eb_ca87, 0x1cad_e507, 0xb7ec_c2ac_4b3c_a5bc);
    XorAt(0xa2, 0x72, 0xf9, 0x4f, 0xf1, 0x73, 0xb9, 0xce, 0xb7, 0xec, 0xc2, 0xac, 0x4b, 0x3c, 0xa5, 0xbc);
    RotateAt(23, 0x80_0000, 0x200_0000_0000, 0xa_cf1d, 0x1e3_ba4f_1c72);
    MulAt(0xf1dd_278e_390a_cf1d, 0xc2b2_ae3d_27d4_eb4f, 0xb7f2_685d_6054_cc9c, 0xff89_b5aa_7579_88f3);
  }

  lemma FoxAvalanche()
    ensures Avalanche(0x15e0_1d5c_13b1_02ec) == 0x44ad_3370_5751_ad73
  {
    hide Mul, XorW, RotateLeft, ShrW, ProcessSingle, Xor, Pow2;
    Powers();
    ShiftAt(33, 0x2_0000_0000, 0xaf0_0eae, 0x13b1_02ec);
    XorAt(0x15, 0xe0, 0x1d, 0x5c, 0x13, 0xb1, 0x02, 0xec, 0x00, 0x00, 0x00, 0x00, 0x0a, 0xf0, 0x0e, 0xae);
    MulAt(0x15e0_1d5c_1941_0c42, 0xc2b2_ae3d_27d4_eb4f, 0x10a3_1af7_c2ef_c8cd, 0x97f3_3510_b5fb_5e5e);
    ShiftAt(29, 0x2000_0000, 0x4_bf99_a885, 0x15fb_5e5e);
    XorAt(0x97, 0xf3, 0x35, 0x10, 0xb5, 0xfb, 0x5e, 0x5e, 0x00, 0x00, 0x00, 0x04, 0xbf, 0x99, 0xa8, 0x85);
    MulAt(0x97f3_3514_0a62_f6db, 0x1656_67b1_9e37_79f9, 0xd42_2fcf_d50b_c9e7, 0x44ad_3370_13fc_9e03);
    ShiftAt(32, 0x1_0000_0000, 0x44ad_3370, 0x13fc_9e03);
    XorAt(0x44, 0xad, 0x33, 0x70, 0x13, 0xfc, 0x9e, 0x03, 0x00, 0x00, 0x00, 0x00, 0x44, 0xad, 0x33, 0x70);
  }

  lemma FoxStripes()
    ensures |FOX| == 44 && Stripes(Initial(0), FOX) == Accumulators(0x1bf9_61d2_8f3a_149d, 0xbd1_8aa2_ee4d_901f, 0x9986_f59c_c4fe_6078, 0x79f8_0495_cc7e_bc76)
  {
    hide Initial, ProcessSingle, Little, StripeOf;
    LanesJoined(LANE1, LANE2, LANE3, LANE4);
    CutAfter(STRIPE, REST);
    FirstLanes();
    LaterLanes();
    FoxStripe();
    StripeIs(Initial(0), STRIPE);
    hide Stripe;
    NoStripes(Stripe(Initial(0), STRIPE), REST);
  }

  lemma StripeIs(a: Accumulators, s: seq<byte>)
    requires |s| == 32
    ensures Stripe(a, s) == StripeOf(a, Little(s[0..8]), Little(s[8..16]), Little(s[16..24]), Little(s[24..32]))
  {
    hide ProcessSingle, Little;
  }

  lemma FoxRemaining()
    ensures Remaining(0x9007_c00f_586b_fb1c, REST) == 0x15e0_1d5c_13b1_02ec
  {
    hide EatEight, EatFour, Little;
    CutAfter(LANE5, LANE6);
    CutAfter(LANE6, []);
    assert LANE6 + [] == LANE6;
    LastLanes();
    FoxEight();
    FoxFour();
  }

  /** A stripe, eight bytes and four bytes. */
  lemma QuickBrownFox()
    ensures |FOX| == 44 && XXH64(FOX, 0) == 0x44ad_3370_5751_ad73
  {
    hide Stripes, Converge, Remaining, Avalanche, Initial;
    FoxStripes();
    FoxConverge();
    FoxRemaining();
    FoxAvalanche();
    CutAfter(STRIPE, REST);
  }

  // ------------------------------------------------------------------ "a"

  lemma LetterByte()
    ensures EatByte(0x27d4_eb2f_1656_67c6, 97) == 0xb865_97e4_19d4_d215
  {
    hide Mul, XorW, RotateLeft, ShrW, ProcessSingle, Xor, Pow2;
    Powers();
    MulAt(0x61, 0x27d4_eb2f_1656_67c5, 0xf, 0x17ad_1cd7_76bd_51a5);
    XorAt(0x27, 0xd4, 0xeb, 0x2f, 0x16, 0x56, 0x67, 0xc6, 0x17, 0xad, 0x1c, 0xd7, 0x76, 0xbd, 0x51, 0xa5);
    RotateAt(11, 0x800, 0x20_0000_0000_0000, 0x183, 0x19_f7f8_60eb_3663);
    MulAt(0xcfbf_c307_59b3_1983, 0x9e37_79b1_85eb_ca87, 0x8065_5f53_2363_1a69, 0xb865_97e4_19d4_d215);
  }

  lemma LetterAvalanche()
    ensures Avalanche(0xb865_97e4_19d4_d215) == 0xd24e_c4f1_a98c_6e5b
  {
    hide Mul, XorW, RotateLeft, ShrW, ProcessSingle, Xor, Pow2;
    Powers();
    ShiftAt(33, 0x2_0000_0000, 0x5c32_cbf2, 0x19d4_d215);
    XorAt(0xb8, 0x65, 0x97, 0xe4, 0x19, 0xd4, 0xd2, 0x15, 0x00, 0x00, 0x00, 0x00, 0x5c, 0x32, 0xcb, 0xf2);
    MulAt(0xb865_97e4_45e6_19e7, 0xc2b2_ae3d_27d4_eb4f, 0x8c3d_b13f_b3d4_2a49, 0xd785_8a26_7015_0b49);
    ShiftAt(29, 0x2000_0000, 0x6_bc2c_5133, 0x1015_0b49);
    XorAt(0xd7, 0x85, 0x8a, 0x26, 0x70, 0x15, 0x0b, 0x49, 0x00, 0x00, 0x00, 0x06, 0xbc, 0x2c, 0x51, 0x33);
    MulAt(0xd785_8a20_cc39_5a7a, 0x1656_67b1_9e37_79f9, 0x12ce_3807_7bac_5b83, 0xd24e_c4f1_7bc2_aaaa);
    ShiftAt(32, 0x1_0000_0000, 0xd24e_c4f1, 0x7bc2_aaaa);
    XorAt(0xd2, 0x4e, 0xc4, 0xf1, 0x7b, 0xc2, 0xaa, 0xaa, 0x00, 0x00, 0x00, 0x00, 0xd2, 0x4e, 0xc4, 0xf1);
  }

  /** No stripe, one byte. */
  lemma SingleLetter()
    ensures XXH64([97], 0) == 0xd24e_c4f1_a98c_6e5b
  {
    hide Stripes, Converge, EatByte, Avalanche, Initial;
    LetterByte();
    LetterAvalanche();
    assert Rest([97]) == [97] && [97][1..] == [];
  }
}
