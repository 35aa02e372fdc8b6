/** FastCDC (src/dedup/fastcdc_chunker.cc): content-defined chunking by a gear hash of the bytes after
    the minimum, with a stricter mask up to the normal size. */
module FastCdc {
  import opened Words
  import opened Chunking
  import Sequences
  import WordLaws

  type word = n: nat | n < 0x1_0000_0000

  // ------------------------------------------------------------------ specification

  /** `gear` is the table GEAR; the two masks come from a floating-point logarithm and are arbitrary here. */
  datatype Params = Params(min: nat, normal: nat, max: nat, maskS: nat, maskL: nat, gear: seq<word>)

  ghost predicate Admissible(p: Params) {
    p.min <= p.max && p.normal <= p.max && 1 <= p.max < TWO_32 && |p.gear| == 256
  }

  /** The gear hash of a byte string, newest byte last. */
  function GearHash(gear: seq<word>, x: seq<byte>): (h: nat)
    requires |gear| == 256
    ensures h < TWO_32
  {
    if x == [] then 0 else Roll(gear, GearHash(gear, x[..|x| - 1]), x[|x| - 1])
  }

  /** `(fp >> 1) + GEAR[b]` on 32-bit words. */
  function Roll(gear: seq<word>, fp: nat, b: byte): (h: nat)
    requires |gear| == 256 && fp < TWO_32
    ensures h < TWO_32
  {
    (fp / 2 + gear[b]) % TWO_32
  }

  /** Where a chunk may end: the gear hash of its bytes after the first `min` is zero under the mask for
      its length. */
  ghost function Ends(p: Params): seq<byte> -> bool
    requires |p.gear| == 256
  {
    (x: seq<byte>) => |x| > p.min && And(GearHash(p.gear, x[p.min..]), if |x| <= p.normal then p.maskS else p.maskL) == 0
  }

  ghost function Cut(p: Params): seq<byte> -> nat
    requires |p.gear| == 256
  {
    LeastCut(Ends(p), p.max)
  }

  lemma EndsReach(p: Params)
    requires |p.gear| == 256
    ensures Reaches(Ends(p), p.min)
  {
    hide GearHash;
  }

  /** Lossless, sizes within bounds, and a cut is decided by the bytes of its chunk. */
  lemma CutRule(p: Params, s: seq<byte>)
    requires Admissible(p)
    ensures Cuts(Cut(p), p.min, p.max) && Online(Cut(p))
    ensures Sequences.Flatten(Chunks(Cut(p), s)) == s
  {
    hide Ends, LeastCut, Chunks;
    EndsReach(p);
    LeastCutBounds(Ends(p), p.min, p.max);
    LeastCutOnline(Ends(p), p.max);
    ChunksOfBuffer(Ends(p), p.min, p.max, s);
  }

  // ------------------------------------------------------------------ the hash in closed form

  /** The table entries of the bytes, each byte's entry with one more place than the byte before it. */
  function GearSum(gear: seq<word>, x: seq<byte>): nat
    requires |gear| == 256
  {
    if x == [] then 0 else GearSum(gear, x[..|x| - 1]) + Shl(gear[x[|x| - 1]], |x| - 1)
  }

  lemma {:induction false} ShrOfSum(a: nat, g: nat, n: nat)
    ensures Shr(a + Shl(g, n), n) == Shr(a, n) + g
    decreases n
  {
    if n > 0 {
      var s := Shl(g, n - 1);
      assert Shl(g, n) == 2 * s;
      ShrOfSum(a / 2, g, n - 1);
      hide Shl;
      assert (a + 2 * s) / 2 == a / 2 + s;
    }
  }

  /** For a table of entries below 2^31, such as GEAR (fastcdc_chunker.h, line 18), no sum wraps: the hash is the
      weighted sum of the entries, the newest byte's at full weight and each older one's at half the
      weight of the next, rounded down once. */
  lemma {:induction false} GearIsSum(gear: seq<word>, x: seq<byte>)
    requires |gear| == 256 && (forall b :: 0 <= b < 256 ==> gear[b] < 0x8000_0000) && x != []
    ensures GearHash(gear, x) == Shr(GearSum(gear, x), |x| - 1)
  {
    var n := |x| - 1;
    var sum, g := GearSum(gear, x[..n]), gear[x[n]];
    LastGear(gear, x);
    hide GearHash, GearSum, Shr, Shl;
    ShrOfSum(sum, g, n);
    if n > 0 {
      GearIsSum(gear, x[..n]);
      WordLaws.ShrAgain(sum, n - 1, 1);
      ShrByOne(Shr(sum, n - 1));
    } else {
      WordLaws.ShrNone(0);
    }
  }

  lemma ShrByOne(a: nat)
    ensures Shr(a, 1) == a / 2
  {
  }

  /** The newest byte split off. */
  lemma LastGear(gear: seq<word>, x: seq<byte>)
    requires |gear| == 256 && (forall b :: 0 <= b < 256 ==> gear[b] < 0x8000_0000) && x != []
    ensures var n, before := |x| - 1, x[..|x| - 1];
      && GearHash(gear, x) == GearHash(gear, before) / 2 + gear[x[n]]
      && GearSum(gear, x) == GearSum(gear, before) + Shl(gear[x[n]], n)
      && (n == 0 ==> GearHash(gear, before) == 0 == GearSum(gear, before))
  {
    hide Shl;
    if |x| == 1 { assert x[..0] == []; }
  }

  /** The test of lines 120-137 for the first `c` bytes, on the weighted sum. */
  ghost predicate DirectStop(p: Params, s: seq<byte>, c: nat)
    requires |p.gear| == 256 && c <= |s|
  {
    || c == p.max || c == |s|
    || (c > p.min && And(Shr(GearSum(p.gear, s[p.min..c]), c - p.min - 1), if c <= p.normal then p.maskS else p.maskL) == 0)
  }

  /** The boundary property: a cut is the least length that reaches `max`, or exhausts the buffer, or lies
      beyond `min` with the weighted sum of the bytes after the minimum zero under the mask. */
  lemma CutMeans(p: Params, s: seq<byte>, c: nat)
    requires |p.gear| == 256 && (forall b :: 0 <= b < 256 ==> p.gear[b] < 0x8000_0000) && 1 <= c <= |s|
    ensures Cut(p)(s) == c <==> DirectStop(p, s, c) && forall k :: 1 <= k < c ==> !DirectStop(p, s, k)
  {
    hide GearHash, GearSum, And, Shr, LeastCut;
    forall k | 1 <= k <= |s| ensures Stops(Ends(p), p.max, s, k) == DirectStop(p, s, k) {
      if k > p.min {
        assert s[..k][p.min..] == s[p.min..k];
        GearIsSum(p.gear, s[p.min..k]);
      }
    }
    hide Stops, Ends, DirectStop;
    CutIs(Ends(p), p.max, s, c);
  }

  // ------------------------------------------------------------------ the normal size

  function DivCeil(a: nat, b: nat): nat
    requires b > 0
  {
    if a % b == 0 then a / b else a / b + 1
  }

  /** CalNormalSize, lines 87-98; `uint32_t` sums that wrap are excluded. */
  function CalNormalSize(min: nat, avg: nat, max: nat): (normal: nat)
    requires min + DivCeil(min, 2) < TWO_32
    ensures normal <= max
  {
    var off := if min + DivCeil(min, 2) > avg then avg else min + DivCeil(min, 2);
    var diff := avg - off;
    if diff > max then max else diff
  }

  /** The strict mask plays a part only when the average is more than two and a half times the minimum:
      the result is an average less an offset, not a size beyond the minimum. */
  lemma StrictMaskUsed(min: nat, avg: nat, max: nat, p: Params)
    requires min + DivCeil(min, 2) < TWO_32 && min < max && avg <= max
    requires |p.gear| == 256 && p.min == min && p.normal == CalNormalSize(min, avg, max)
    ensures min < p.normal <==> avg > 2 * min + DivCeil(min, 2)
    ensures avg <= 2 * min + DivCeil(min, 2) ==>
      forall x :: Ends(p)(x) <==> |x| > min && And(GearHash(p.gear, x[min..]), p.maskL) == 0
  {
    hide GearHash, And;
  }

  /** With the sizes of config.json the normal size lies below the minimum, and the loose mask decides. */
  lemma StrictMaskUnusedAsConfigured(p: Params)
    requires |p.gear| == 256 && p.min == 4096 && p.normal == CalNormalSize(4096, 8192, 16384)
    ensures p.normal == 2048
    ensures forall x :: Ends(p)(x) <==> |x| > 4096 && And(GearHash(p.gear, x[4096..]), p.maskL) == 0
  {
    StrictMaskUsed(4096, 8192, 16384, p);
  }

  // ------------------------------------------------------------------ the search loop

  /** `i` bytes of `s` were looked at, `fp` is the hash of those after the minimum, and no cut was found. */
  ghost predicate HashedTo(p: Params, s: seq<byte>, i: nat, fp: nat) {
    && Admissible(p) && i <= |s| && i <= p.max && (i >= p.min || i == |s|)
    && fp == (if i >= p.min then GearHash(p.gear, s[p.min..i]) else 0)
    && !Ends(p)(s[..i])
    && forall k :: 1 <= k < i ==> !Stops(Ends(p), p.max, s, k)
  }

  lemma StartOfHash(p: Params, s: seq<byte>, i: nat)
    requires Admissible(p) && i == if |s| < p.min then |s| else p.min
    ensures HashedTo(p, s, i, 0)
  {
    hide And;
    forall k | 1 <= k < i ensures !Stops(Ends(p), p.max, s, k) {}
  }

  /** The mask test for length `i + 1`. */
  lemma TestAt(p: Params, s: seq<byte>, i: nat, fp: nat)
    requires HashedTo(p, s, i, fp) && i < |s|
    ensures var h := Roll(p.gear, fp, s[i]);
      && GearHash(p.gear, s[p.min..i + 1]) == h
      && (Ends(p)(s[..i + 1]) <==> And(h, if i + 1 <= p.normal then p.maskS else p.maskL) == 0)
  {
    hide And, Stops;
    assert s[p.min..i + 1][..i - p.min] == s[p.min..i];
    assert s[..i + 1][p.min..] == s[p.min..i + 1];
  }

  lemma NoneStopped(p: Params, s: seq<byte>, i: nat, fp: nat)
    requires HashedTo(p, s, i, fp) && i < |s| && i < p.max
    ensures forall k :: 1 <= k < i + 1 ==> !Stops(Ends(p), p.max, s, k)
  {
    hide Ends, GearHash;
    assert !Stops(Ends(p), p.max, s, i);
  }

  lemma HashStep(p: Params, s: seq<byte>, i: nat, fp: nat)
    requires HashedTo(p, s, i, fp) && i < |s| && i < p.max
    ensures var h := Roll(p.gear, fp, s[i]); var mask := if i + 1 <= p.normal then p.maskS else p.maskL;
      && (And(h, mask) != 0 ==> HashedTo(p, s, i + 1, h))
      && (And(h, mask) == 0 ==> Cut(p)(s) == i + 1)
  {
    TestAt(p, s, i, fp);
    NoneStopped(p, s, i, fp);
    hide And, Roll, GearHash, LeastCut, Ends;
    CutIs(Ends(p), p.max, s, i + 1);
    hide Stops;
  }

  lemma CutAtEnd(p: Params, s: seq<byte>, i: nat, fp: nat)
    requires HashedTo(p, s, i, fp) && 1 <= i && (i == |s| || i == p.max)
    ensures Cut(p)(s) == i
  {
    hide And, GearHash, LeastCut;
    CutIs(Ends(p), p.max, s, i);
  }

  // ------------------------------------------------------------------ the chunker

  class Chunker {
    const minChunkSize: nat
    const maxChunkSize: nat
    const normalChunkSize: nat
    const maskS: nat
    const maskL: nat
    const gear: seq<word>
    const readDataBuf: array<byte>
    var pendingChunkingSize: nat
    var remainChunkingSize: nat
    var curOffset: nat
    var totalChunkNum: nat
    var totalFileSize: nat

    ghost const parameters: Params := Params(minChunkSize, normalChunkSize, maxChunkSize, maskS, maskL, gear)

    /** CutPoint takes the length as a `uint32_t`: buffers are shorter than 2^32 bytes. */
    ghost predicate Valid()
      reads this
    {
      && Admissible(parameters)
      && curOffset + remainChunkingSize == pendingChunkingSize <= readDataBuf.Length < TWO_32
    }

    ghost function Remaining(): seq<byte>
      reads this, readDataBuf
    {
      if curOffset <= pendingChunkingSize <= readDataBuf.Length then readDataBuf[curOffset..pendingChunkingSize] else []
    }

    constructor (min: nat, avg: nat, max: nat, maskS: nat, maskL: nat, gear: seq<word>, readSize: nat)
      requires min <= max && 1 <= max < TWO_32 && min + DivCeil(min, 2) < TWO_32 && |gear| == 256 && readSize < TWO_32
      ensures Valid() && Remaining() == [] && readDataBuf.Length == readSize
      ensures parameters == Params(min, CalNormalSize(min, avg, max), max, maskS, maskL, gear)
    {
      minChunkSize, maxChunkSize, normalChunkSize := min, max, CalNormalSize(min, avg, max);
      this.maskS, this.maskL, this.gear := maskS, maskL, gear;
      readDataBuf := new byte[readSize];
      pendingChunkingSize, remainChunkingSize, curOffset := 0, 0, 0;
      totalChunkNum, totalFileSize := 0, 0;
    }

    /** LoadDataFromFile, for the bytes the stream delivers. */
    method LoadData(input: seq<byte>)
      requires Valid() && |input| <= readDataBuf.Length
      modifies this, readDataBuf
      ensures Valid() && Remaining() == input
    {
      forall i | 0 <= i < |input| {
        readDataBuf[i] := input[i];
      }
      pendingChunkingSize := |input|;
      curOffset := 0;
      remainChunkingSize := pendingChunkingSize;
    }

    /** CutPoint, lines 119-140, on the `len` bytes at `src`. */
    method CutPoint(ghost s: seq<byte>, src: nat, len: nat) returns (c: nat)
      requires Valid() && src + len <= readDataBuf.Length && s == readDataBuf[src..src + len] && len >= 1
      ensures c == Cut(parameters)(s)
    {
      hide GearHash, Roll, And, Cut, HashedTo;
      ghost var p := parameters;
      var fp: nat, i: nat := 0, if len < minChunkSize then len else minChunkSize;
      StartOfHash(p, s, i);
      var n := if normalChunkSize < len then normalChunkSize else len;
      while i < n
        invariant i <= n || i <= minChunkSize
        invariant i <= len && i <= maxChunkSize && 0 <= fp < TWO_32 && HashedTo(p, s, i, fp)
      {
        HashStep(p, s, i, fp);
        fp := Roll(gear, fp, readDataBuf[src + i]);
        if And(fp, maskS) == 0 {
          return i + 1;
        }
        i := i + 1;
      }
      n := if maxChunkSize < len then maxChunkSize else len;
      while i < n
        invariant i <= n && (i >= normalChunkSize || i == n) && 0 <= fp < TWO_32 && HashedTo(p, s, i, fp)
      {
        HashStep(p, s, i, fp);
        fp := Roll(gear, fp, readDataBuf[src + i]);
        if And(fp, maskL) == 0 {
          return i + 1;
        }
        i := i + 1;
      }
      CutAtEnd(p, s, i, fp);
      return i;
    }

    /** The memcpy of lines 64 and 68. */
    method CopyOut(data: array<byte>, n: nat)
      requires curOffset + n <= readDataBuf.Length && n <= data.Length && data != readDataBuf
      modifies data
      ensures forall i :: 0 <= i < n ==> data[i] == readDataBuf[curOffset + i]
    {
      forall i | 0 <= i < n {
        data[i] := readDataBuf[curOffset + i];
      }
    }

    /** Lines 63-69. */
    method NextSize(ghost s: seq<byte>) returns (chunkSize: nat)
      requires Valid() && s == Remaining() && s != []
      ensures 1 <= chunkSize <= |s| && chunkSize <= maxChunkSize
      ensures Chunks(Cut(parameters), s) == [s[..chunkSize]] + Chunks(Cut(parameters), s[chunkSize..])
    {
      hide LeastCut, Ends, Chunks;
      if remainChunkingSize <= minChunkSize {
        chunkSize := remainChunkingSize;
        EndsReach(parameters);
        ShortBuffer(Ends(parameters), minChunkSize, maxChunkSize, s);
      } else {
        chunkSize := CutPoint(s, curOffset, pendingChunkingSize - curOffset);
      }
      EndsReach(parameters);
      FirstChunk(Ends(parameters), minChunkSize, maxChunkSize, s);
    }

    /** GenerateOneChunk: zero at the end of the buffer, else the next chunk is copied out. */
    method GenerateOneChunk(data: array<byte>) returns (chunkSize: nat)
      requires Valid() && data.Length >= maxChunkSize && data != readDataBuf
      modifies this, data
      ensures Valid()
      ensures chunkSize == 0 <==> old(Remaining()) == []
      ensures chunkSize == 0 ==> Remaining() == []
      ensures chunkSize > 0 ==>
        && chunkSize <= data.Length
        && Chunks(Cut(parameters), old(Remaining())) == [data[..chunkSize]] + Chunks(Cut(parameters), Remaining())
        && data[..chunkSize] + Remaining() == old(Remaining())
      ensures totalFileSize == old(totalFileSize) + chunkSize
      ensures totalChunkNum == old(totalChunkNum) + if chunkSize > 0 then 1 else 0
    {
      hide Cut, Chunks;
      ghost var s := Remaining();
      chunkSize := 0;
      if pendingChunkingSize == 0 || remainChunkingSize == 0 {
        return;
      }
      chunkSize := NextSize(s);
      CopyOut(data, chunkSize);
      assert |s| == pendingChunkingSize - curOffset && forall i :: 0 <= i < chunkSize ==> s[i] == readDataBuf[curOffset + i];
      assert data[..chunkSize] == s[..chunkSize];
      curOffset := curOffset + chunkSize;
      remainChunkingSize := remainChunkingSize - chunkSize;
      assert Remaining() == s[chunkSize..];
      totalChunkNum := totalChunkNum + 1;
      totalFileSize := totalFileSize + chunkSize;
    }
  }
}
