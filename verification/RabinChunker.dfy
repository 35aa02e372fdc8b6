/** RabinChunker (src/dedup/rabin_chunker.cc): content-defined chunking by the fingerprint of the last
    bytes of a chunk. */
module RabinChunker {
  import opened Words
  import opened Gf2
  import opened RabinPoly
  import opened Chunking
  import Sequences

  // ------------------------------------------------------------------ specification

  datatype Params = Params(min: nat, max: nat, bits: nat, window: nat)

  ghost predicate Admissible(p: Params) {
    p.min <= p.max && 1 <= p.max && 1 <= p.window <= UINT32_MAX
  }

  /** Where a chunk `x` may end: the direct remainder of its last `window` bytes, zero-padded at the
      front, has its low bits zero. */
  ghost function Ends(p: Params): seq<byte> -> bool {
    (x: seq<byte>) => |x| >= p.min && Low(Fingerprint(LastBytes(x, p.window)), p.bits) == 0
  }

  ghost function Cut(p: Params): seq<byte> -> nat {
    LeastCut(Ends(p), p.max)
  }

  lemma EndsReach(p: Params)
    ensures Reaches(Ends(p), p.min)
  {
    hide Fingerprint, LastBytes;
  }

  ghost predicate DirectStop(p: Params, s: seq<byte>, c: nat)
    requires p.window <= p.min && c <= |s|
  {
    c == p.max || c == |s| || (c >= p.min && Low(Fingerprint(s[c - p.window..c]), p.bits) == 0)
  }

  /** The boundary property: a cut is the least length that reaches `max`, or exhausts the buffer, or is
      at least `min` with the remainder of the window before it zero in its low bits.  With a window of at
      most `min` bytes only the `window` bytes before the cut decide. */
  lemma CutMeans(p: Params, s: seq<byte>, c: nat)
    requires p.window <= p.min && 1 <= c <= |s|
    ensures Cut(p)(s) == c <==> DirectStop(p, s, c) && forall k :: 1 <= k < c ==> !DirectStop(p, s, k)
  {
    hide Fingerprint, Low, LeastCut;
    forall k | 1 <= k <= |s| ensures Stops(Ends(p), p.max, s, k) == DirectStop(p, s, k) {
      if k >= p.min { assert LastBytes(s[..k], p.window) == s[k - p.window..k]; }
    }
    hide Stops, LastBytes, Ends, DirectStop;
    CutIs(Ends(p), p.max, s, c);
  }

  /** The test of lines 90-91 on a fingerprint `fp` of the bytes so far. */
  lemma StopTest(p: Params, s: seq<byte>, c: nat, fp: nat)
    requires c <= |s| && fp == Fingerprint(LastBytes(s[..c], p.window))
    ensures Stops(Ends(p), p.max, s, c) <==> c == p.max || c == |s| || (c >= p.min && And(fp, Pow2(p.bits) - 1) == 0)
  {
    hide Fingerprint, LastBytes, Low, And, Pow2;
    MaskIsLow(fp, p.bits);
  }

  /** Lossless, sizes within bounds, and a cut is decided by the bytes of its chunk: what Chunking needs
      for PrefixStays, Resynchronises and EditIsLocal. */
  lemma CutRule(p: Params, s: seq<byte>)
    requires Admissible(p)
    ensures Cuts(Cut(p), p.min, p.max) && Online(Cut(p))
    ensures Sequences.Flatten(Chunks(Cut(p), s)) == s
  {
    hide Ends, LeastCut, Chunks;
    EndsReach(p);
    LeastCutBounds(Ends(p), p.min, p.max);
    LeastCutOnline(Ends(p), p.max);
    ChunksOfBuffer(Ends(p), p.min, p.max, s);
  }

  // ------------------------------------------------------------------ the chunker

  /** GetBitNum: the floor of the logarithm. */
  method GetBitNum(inputNum: nat) returns (numOfBit: nat)
    ensures inputNum > 0 ==> Pow2(numOfBit) <= inputNum < Pow2(numOfBit + 1)
    ensures inputNum == 0 ==> numOfBit == 0
  {
    var tmp := inputNum;
    numOfBit := 0;
    while tmp / 2 != 0
      invariant inputNum == 0 ==> tmp == 0 && numOfBit == 0
      invariant inputNum > 0 ==> tmp > 0 && tmp * Pow2(numOfBit) <= inputNum < (tmp + 1) * Pow2(numOfBit)
    {
      Rescale(inputNum, tmp, numOfBit);
      numOfBit := numOfBit + 1;
      tmp := tmp / 2;
    }
  }

  lemma Rescale(x: nat, t: nat, n: nat)
    requires t * Pow2(n) <= x < (t + 1) * Pow2(n)
    ensures t / 2 * Pow2(n + 1) <= x < (t / 2 + 1) * Pow2(n + 1)
  {
    var h, c := t / 2, t % 2;
    assert t == h + h + c;
    assert (h + h + c) * Pow2(n) == h * Pow2(n + 1) + c * Pow2(n);
    assert (h + h + c + 1) * Pow2(n) == h * Pow2(n + 1) + (c + 1) * Pow2(n);
    assert (h + 1) * Pow2(n + 1) == h * Pow2(n + 1) + 2 * Pow2(n);
  }

  class Chunker {
    const minChunkSize: nat
    const maxChunkSize: nat
    const avgChunkSize: nat
    const rabinUtil: RabinFpUtil
    const rabinCtx: RabinCtx
    const readDataBuf: array<byte>
    var mask: nat
    ghost var bits: nat
    var pendingChunkingSize: nat
    var remainChunkingSize: nat
    var curOffset: nat
    var totalChunkNum: nat
    var totalFileSize: nat

    ghost function Parameters(): Params
      reads this
    {
      Params(minChunkSize, maxChunkSize, bits, rabinUtil.windowSize)
    }

    /** Between calls the context is always as after a reset. */
    ghost predicate Valid()
      reads this, readDataBuf, rabinUtil, rabinUtil.T, rabinUtil.U, rabinCtx, rabinCtx.circBuf
    {
      && Admissible(Parameters()) && maxChunkSize <= UINT32_MAX
      && (avgChunkSize > 0 ==> Pow2(bits) <= avgChunkSize < Pow2(bits + 1)) && (avgChunkSize == 0 ==> bits == 0)
      && mask == Pow2(bits) - 1
      && rabinUtil.Valid() && rabinCtx.Valid(rabinUtil.windowSize) && rabinCtx.history == []
      && curOffset + remainChunkingSize == pendingChunkingSize <= readDataBuf.Length
      && rabinCtx.circBuf != readDataBuf
    }

    /** The bytes of the buffer not yet chunked. */
    ghost function Remaining(): seq<byte>
      reads this, readDataBuf
    {
      if curOffset <= pendingChunkingSize <= readDataBuf.Length then readDataBuf[curOffset..pendingChunkingSize] else []
    }

    /** The constructors of AbsChunker and RabinChunker.  `1 << bit_of_avg` is an int: an average chunk
        size of 2^31 or more would overflow it. */
    constructor (min: nat, avg: nat, max: nat, readSize: nat, window: nat)
      requires min <= max && 1 <= max <= UINT32_MAX && avg < Pow2(31) && 1 <= window <= UINT32_MAX
      ensures Valid() && Remaining() == []
      ensures Parameters() == Params(min, max, bits, window) && avgChunkSize == avg && readDataBuf.Length == readSize
    {
      hide Fingerprint, LastBytes, TableT, TableU, RabinFpUtil.Valid, RabinCtx.Valid, Pow2, Shl;
      minChunkSize, maxChunkSize, avgChunkSize := min, max, avg;
      readDataBuf := new byte[readSize];
      var util := new RabinFpUtil(window);
      var ctx := util.NewCtx();
      rabinUtil, rabinCtx := util, ctx;
      var bitOfAvg := GetBitNum(avg);
      ShlIsPow2(bitOfAvg);
      mask := Shl(1, bitOfAvg) - 1;
      bits := bitOfAvg;
      pendingChunkingSize, remainChunkingSize, curOffset := 0, 0, 0;
      totalChunkNum, totalFileSize := 0, 0;
    }

    /** LoadDataFromFile, for the bytes the stream delivers. */
    method LoadData(input: seq<byte>)
      requires Valid() && |input| <= readDataBuf.Length
      modifies this, readDataBuf
      ensures Valid() && Parameters() == old(Parameters()) && Remaining() == input
      ensures totalFileSize == old(totalFileSize)
    {
      hide Fingerprint, LastBytes, TableT, TableU, Pow2;
      forall i | 0 <= i < |input| {
        readDataBuf[i] := input[i];
      }
      pendingChunkingSize := |input|;
      curOffset := 0;
      remainChunkingSize := pendingChunkingSize;
    }

    /** Lines 81-96: slide byte after byte until the chunk stops. */
    method FindCut(ghost s: seq<byte>) returns (chunkSize: nat)
      requires Valid() && s == Remaining() && s != []
      modifies rabinCtx, rabinCtx.circBuf
      ensures Valid() && rabinCtx.circBuf == old(rabinCtx.circBuf)
      ensures s == Remaining() && chunkSize == Cut(Parameters())(s)
    {
      hide Fingerprint, LastBytes, TableT, TableU, Pow2, And, Ends, Stops, LeastCut, RabinFpUtil.Valid, RabinCtx.Valid;
      chunkSize := 0;
      ghost var p := Parameters();
      while true
        invariant rabinUtil.Valid() && rabinCtx.Valid(rabinUtil.windowSize) && rabinCtx.circBuf == old(rabinCtx.circBuf)
        invariant chunkSize < |s| && chunkSize < maxChunkSize && s == Remaining()
        invariant rabinCtx.history == s[..chunkSize]
        invariant forall k :: 1 <= k <= chunkSize ==> !Stops(Ends(p), p.max, s, k)
        decreases |s| - chunkSize
        modifies rabinCtx, rabinCtx.circBuf
      {
        var inputByte := readDataBuf[curOffset + chunkSize];
        assert inputByte == s[chunkSize];
        assert s[..chunkSize] + [inputByte] == s[..chunkSize + 1];
        var curFp := rabinUtil.SlideOneByte(rabinCtx, inputByte);
        chunkSize := chunkSize + 1;
        StopTest(p, s, chunkSize, curFp);
        if (chunkSize >= minChunkSize && And(curFp, mask) == 0) || chunkSize == maxChunkSize || remainChunkingSize - chunkSize == 0 {
          rabinUtil.ResetCtx(rabinCtx);
          break;
        }
      }
      CutIs(Ends(p), p.max, s, chunkSize);
    }

    /** The memcpy of lines 75 and 92. */
    method CopyOut(data: array<byte>, n: nat)
      requires curOffset + n <= readDataBuf.Length && n <= data.Length && data != readDataBuf
      modifies data
      ensures forall i :: 0 <= i < n ==> data[i] == readDataBuf[curOffset + i]
    {
      forall i | 0 <= i < n {
        data[i] := readDataBuf[curOffset + i];
      }
    }

    /** Lines 74-97. */
    method NextSize(ghost s: seq<byte>) returns (chunkSize: nat)
      requires Valid() && s == Remaining() && s != []
      modifies rabinCtx, rabinCtx.circBuf
      ensures Valid() && rabinCtx.circBuf == old(rabinCtx.circBuf)
      ensures s == Remaining() && 1 <= chunkSize <= |s| && chunkSize <= maxChunkSize
      ensures Chunks(Cut(Parameters()), s) == [s[..chunkSize]] + Chunks(Cut(Parameters()), s[chunkSize..])
    {
      hide Fingerprint, LastBytes, TableT, TableU, Pow2, LeastCut, Ends, Chunks;
      if remainChunkingSize <= minChunkSize {
        chunkSize := remainChunkingSize;
        EndsReach(Parameters());
        ShortBuffer(Ends(Parameters()), minChunkSize, maxChunkSize, s);
      } else {
        chunkSize := FindCut(s);
      }
      EndsReach(Parameters());
      FirstChunk(Ends(Parameters()), minChunkSize, maxChunkSize, s);
    }

    /** Lines 99-103. */
    method Advance(chunkSize: nat)
      requires Valid() && chunkSize <= remainChunkingSize
      modifies this`curOffset, this`remainChunkingSize, this`totalChunkNum, this`totalFileSize
      ensures Valid() && Remaining() == old(Remaining())[chunkSize..]
      ensures totalFileSize == old(totalFileSize) + chunkSize && totalChunkNum == old(totalChunkNum) + 1
    {
      hide Fingerprint, LastBytes, TableT, TableU, Pow2;
      curOffset := curOffset + chunkSize;
      remainChunkingSize := remainChunkingSize - chunkSize;
      totalChunkNum := totalChunkNum + 1;
      totalFileSize := totalFileSize + chunkSize;
    }

    /** GenerateOneChunk: zero at the end of the buffer, else the next chunk is copied out. */
    method GenerateOneChunk(data: array<byte>) returns (chunkSize: nat)
      requires Valid() && data.Length >= maxChunkSize && data != readDataBuf && data != rabinCtx.circBuf
      modifies this, data, rabinCtx, rabinCtx.circBuf
      ensures Valid() && Parameters() == old(Parameters()) && rabinCtx.circBuf == old(rabinCtx.circBuf)
      ensures chunkSize == 0 <==> old(Remaining()) == []
      ensures chunkSize == 0 ==> Remaining() == []
      ensures chunkSize > 0 ==>
        && chunkSize <= data.Length
        && Chunks(Cut(Parameters()), old(Remaining())) == [data[..chunkSize]] + Chunks(Cut(Parameters()), Remaining())
        && data[..chunkSize] + Remaining() == old(Remaining())
      ensures totalFileSize == old(totalFileSize) + chunkSize
      ensures totalChunkNum == old(totalChunkNum) + if chunkSize > 0 then 1 else 0
    {
      hide Fingerprint, LastBytes, TableT, TableU, Pow2, Cut, Chunks, RabinFpUtil.Valid, RabinCtx.Valid;
      ghost var s := Remaining();
      chunkSize := 0;
      if pendingChunkingSize == 0 || remainChunkingSize == 0 {
        return;
      }
      chunkSize := NextSize(s);
      CopyOut(data, chunkSize);
      assert |s| == pendingChunkingSize - curOffset && forall i :: 0 <= i < chunkSize ==> s[i] == readDataBuf[curOffset + i];
      assert data[..chunkSize] == s[..chunkSize];
      assert Valid();
      Advance(chunkSize);
    }
  }

  /** The caller's loop over one buffer (src/app/chunking_test.cc, lines 146-158): the sizes it gets cut
      the buffer into exactly its chunks. */
  method ChunkBuffer(chunker: Chunker, input: seq<byte>) returns (chunks: seq<seq<byte>>)
    requires chunker.Valid() && |input| <= chunker.readDataBuf.Length
    modifies chunker, chunker.readDataBuf, chunker.rabinCtx, chunker.rabinCtx.circBuf
    ensures chunker.Valid() && chunker.Parameters() == old(chunker.Parameters())
    ensures chunks == Chunks(Cut(chunker.Parameters()), input)
    ensures chunker.totalFileSize == old(chunker.totalFileSize) + |input|
  {
    hide LeastCut, Ends, Chunker.Valid;
    chunker.LoadData(input);
    chunks := [];
    ghost var p := chunker.Parameters();
    var data := new byte[chunker.maxChunkSize];
    var chunkSize: nat := 1;
    while chunkSize != 0
      invariant chunker.Valid() && chunker.Parameters() == p
      invariant chunker.rabinCtx.circBuf == old(chunker.rabinCtx.circBuf)
      invariant chunker.totalFileSize + |chunker.Remaining()| == old(chunker.totalFileSize) + |input|
      invariant chunks + Chunks(Cut(p), chunker.Remaining()) == Chunks(Cut(p), input)
      invariant chunkSize == 0 ==> chunker.Remaining() == []
      decreases |chunker.Remaining()|, chunkSize
    {
      ghost var left := chunker.Remaining();
      chunkSize := chunker.GenerateOneChunk(data);
      if chunkSize > 0 {
        Sequences.Associative(chunks, [data[..chunkSize]], Chunks(Cut(p), chunker.Remaining()));
        assert |left| == chunkSize + |chunker.Remaining()|;
        chunks := chunks + [data[..chunkSize]];
      }
    }
  }
}
