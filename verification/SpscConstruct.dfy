/** Constructing the lock-free queue: ceilToPow2, the block count and the linking loop. */
module SpscConstruct {
  import opened Words
  import opened SpscQueue
  import opened SpscQueueProof
  import opened SpscQueueTheorems

  // ------------------------------------------------------------------ masks and circular indices

  /** With a power of two for a size, `(i + 1) & sizeMask` is the circular successor. */
  lemma MaskedSuccessor(i: nat, k: nat)
    requires i < Pow2(k)
    ensures And(i + 1, Pow2(k) - 1) == Inc(i, Pow2(k))
  {
    MaskIsLow(i + 1, k);
    if i + 1 == Pow2(k) {
      LowWraps(k + 1, k, Pow2(k));
    } else {
      LowBound(i + 1, k);
    }
  }

  /** With a power of two for a size, `(to - from) & sizeMask` in 64 bits is the circular distance. */
  lemma MaskedDistance(from: nat, to: nat, k: nat)
    requires k <= 64 && from < Pow2(k) && to < Pow2(k)
    ensures Pow2(k) <= TWO_64 && And(Sub64(to, from), Pow2(k) - 1) == Dist(from, to, Pow2(k))
  {
    Pow2Values();
    Pow2Monotone(k, 64);
    var d := Sub64(to, from);
    MaskIsLow(d, k);
    hide Pow2, Low, And;
    if from <= to {
      LowBound(d, k);
    } else {
      LowWraps(64, k, from - to);
    }
  }

  // ------------------------------------------------------------------ masks on every schedule

  ghost predicate IsSize(n: nat) {
    exists k: nat :: k <= 63 && n == Pow2(k)
  }

  ghost predicate Sized<T>(q: Queue<T>) {
    IsSize(q.largest) && forall i :: 0 <= i < |q.blocks| ==> IsSize(q.blocks[i].size)
  }

  /** Doubling a size below the largest allowed one. */
  lemma NextSize(n: nat, m: nat)
    requires IsSize(n) && m <= 63 && n < Pow2(m)
    ensures IsSize(n * 2)
  {
    var k: nat :| k <= 63 && n == Pow2(k);
    if m <= k { Pow2Monotone(m, k); }
    assert n * 2 == Pow2(k + 1);
  }

  /** Only line 606 adds a block or changes the largest size, and no block changes its size. */
  lemma ProducerFrames<T>(q: Queue<T>, maxBlock: nat)
    requires !q.prod.P606?
    ensures var r := ProdStep(q, maxBlock);
      && r.largest == q.largest && |r.blocks| == |q.blocks|
      && forall i :: 0 <= i < |q.blocks| ==> r.blocks[i].size == q.blocks[i].size
  {
  }

  lemma ProducerKeepsSizes<T>(q: Queue<T>, m: nat)
    requires Sized(q) && m <= 63
    ensures Sized(ProdStep(q, Pow2(m)))
  {
    hide IsSize, Pow2;
    if q.prod.P606? {
      if q.largest < Pow2(m) { NextSize(q.largest, m); }
    } else {
      hide ProdStep;
      ProducerFrames(q, Pow2(m));
    }
  }

  lemma ConsumerKeepsSizes<T>(q: Queue<T>)
    requires Sized(q)
    ensures Sized(ConsStep(q))
  {
    hide IsSize;
  }

  lemma {:induction false} RunKeepsSizes<T>(c: Config, schedule: seq<Action<T>>, m: nat)
    requires IsSize(c.size) && m <= 63
    ensures Sized(Run(FreshQueue<T>(c.count, c.size), schedule, Pow2(m)))
  {
    hide ProdStep, ConsStep, Pow2, IsSize;
    if schedule != [] {
      RunKeepsSizes<T>(c, schedule[..|schedule| - 1], m);
      var q := Run(FreshQueue<T>(c.count, c.size), schedule[..|schedule| - 1], Pow2(m));
      ProducerKeepsSizes(q, m);
      ConsumerKeepsSizes(q);
    }
  }

  /** On every schedule the circular successor and distance of the model are the masks of the code, in
      every block allocated. */
  lemma MasksOnEverySchedule<T>(c: Config, schedule: seq<Action<T>>, m: nat, i: nat)
    requires IsSize(c.size) && m <= 63
    requires i < |Run(FreshQueue<T>(c.count, c.size), schedule, Pow2(m)).blocks|
    ensures var size := Run(FreshQueue<T>(c.count, c.size), schedule, Pow2(m)).blocks[i].size;
      && 1 <= size < TWO_64
      && (forall x :: 0 <= x < size ==> And(x + 1, size - 1) == Inc(x, size))
      && (forall x, y :: 0 <= x < size && 0 <= y < size ==> And(Sub64(y, x), size - 1) == Dist(x, y, size))
  {
    hide Run, FreshQueue, And, Pow2;
    RunKeepsSizes<T>(c, schedule, m);
    var size := Run(FreshQueue<T>(c.count, c.size), schedule, Pow2(m)).blocks[i].size;
    var e: nat :| e <= 63 && size == Pow2(e);
    Pow2Values();
    Pow2Monotone(e, 63);
    forall x | 0 <= x < size ensures And(x + 1, size - 1) == Inc(x, size) { MaskedSuccessor(x, e); }
    forall x, y | 0 <= x < size && 0 <= y < size ensures And(Sub64(y, x), size - 1) == Dist(x, y, size) {
      MaskedDistance(x, y, e);
    }
  }

  // ------------------------------------------------------------------ ceilToPow2

  /** The top `n` of the `len` bits of `y` are set and none lies above. */
  ghost predicate Smeared(y: nat, len: nat, n: nat) {
    && (forall i: nat :: i < len <= i + n ==> Bit(y, i))
    && (forall i: nat :: len <= i ==> !Bit(y, i))
  }

  /** `y | y >> n` doubles the run of set bits. */
  lemma SmearMore(y: nat, len: nat, n: nat)
    requires Smeared(y, len, n) && n >= 1
    ensures Smeared(Or(y, Shr(y, n)), len, 2 * n)
  {
    forall i: nat
      ensures i < len <= i + 2 * n ==> Bit(Or(y, Shr(y, n)), i)
      ensures len <= i ==> !Bit(Or(y, Shr(y, n)), i)
    {
      OrBit(y, Shr(y, n), i);
      ShrBit(y, n, i);
      assert i < len <= i + 2 * n ==> Bit(y, i) || Bit(y, i + n);
      assert len <= i ==> !Bit(y, i + n);
    }
  }

  lemma SmearStart(y: nat)
    ensures Smeared(y, Length(y), 1)
  {
    if y > 0 {
      TopBit(y);
    }
    LengthBound(y);
    AboveLength(y, Length(y));
  }

  lemma SmearDone(y: nat, len: nat, n: nat)
    requires Smeared(y, len, n) && len <= n
    ensures y == Pow2(len) - 1
  {
    forall i: nat ensures Bit(y, i) == Bit(Pow2(len) - 1, i) {
      OnesBit(len, i);
    }
    Extensional(y, Pow2(len) - 1);
  }

  /** ceilToPow2, lines 654-666: for 1 <= x <= 2^63 the least power of two that is at least `x`;
      0 for the other 64-bit arguments, whose answer does not fit. */
  method CeilToPow2(x: nat) returns (r: nat, ghost k: nat)
    requires x < TWO_64
    ensures 1 <= x <= Pow2(63) ==>
      k <= 63 && r == Pow2(k) && x <= r && (forall j: nat :: x <= Pow2(j) ==> r <= Pow2(j))
    ensures x == 0 || x > Pow2(63) ==> r == 0
  {
    hide Pow2, Or, Shr, Length, Smeared;
    var y: nat := Sub64(x, 1);
    ghost var y0 := y;
    k := Length(y);
    SmearStart(y);
    SmearMore(y, k, 1);
    y := Or(y, Shr(y, 1));
    SmearMore(y, k, 2);
    y := Or(y, Shr(y, 2));
    SmearMore(y, k, 4);
    y := Or(y, Shr(y, 4));
    var i := 1;
    while i < 8
      invariant i == 1 || i == 2 || i == 4 || i == 8
      invariant Smeared(y, k, 8 * i)
    {
      SmearMore(y, k, 8 * i);
      y := Or(y, Shr(y, 8 * i));
      i := 2 * i;
    }
    RoundUp(x, y0, y);
    r := Add64(y, 1);
  }

  lemma RoundUp(x: nat, y0: nat, y: nat)
    requires x < TWO_64 && y0 == Sub64(x, 1) && Smeared(y, Length(y0), 64)
    ensures y < TWO_64 && var r, k := Add64(y, 1), Length(y0);
      && (1 <= x <= Pow2(63) ==>
            k <= 63 && r == Pow2(k) && x <= r && (forall j: nat :: x <= Pow2(j) ==> r <= Pow2(j)))
      && (x == 0 || x > Pow2(63) ==> r == 0)
  {
    hide Pow2, Length, Smeared;
    Pow2Values();
    LengthFits(y0, 64);
    SmearDone(y, Length(y0), 64);
    LengthBound(y0);
    if 1 <= x <= Pow2(63) {
      LengthFits(y0, 63);
      Pow2Monotone(Length(y0), 63);
      LeastPower(x, Length(y0));
    } else if Length(y0) < 64 {
      Pow2Monotone(Length(y0), 63);
    }
  }

  /** No smaller power of two reaches `x`. */
  lemma LeastPower(x: nat, len: nat)
    requires 1 <= x && len == Length(x - 1)
    ensures x <= Pow2(len) && (forall j: nat :: x <= Pow2(j) ==> Pow2(len) <= Pow2(j))
  {
    LengthBound(x - 1);
    forall j: nat | x <= Pow2(j) ensures Pow2(len) <= Pow2(j) {
      LengthFits(x - 1, j);
      Pow2Monotone(len, j);
    }
  }

  // ------------------------------------------------------------------ the constructor

  /** The linking loop of lines 126-143 after `i` rounds: blocks in a circle, the last linked to the
      first. */
  ghost predicate Circle<T>(bs: seq<Block<T>>, size: nat) {
    forall i :: 0 <= i < |bs| ==> bs[i] == NewBlock(size, Inc(i, |bs|))
  }

  lemma CircleIsFresh<T>(bs: seq<Block<T>>, size: nat)
    requires forall i :: 0 <= i < |bs| ==> bs[i] == NewBlock(size, Inc(i, |bs|))
    ensures FreshQueue<T>(|bs|, size) == Queue(bs, 0, 0, size, PIdle, CIdle, [], [], NotCalled, NoCall)
  {
  }

  /** One round of the loop: a new block between the last one and the first. */
  lemma CircleSizes<T>(bs: seq<Block<T>>, size: nat)
    requires Circle(bs, size)
    ensures bs != [] ==> bs[0].size == size
  {
  }

  lemma CircleGrows<T>(bs: seq<Block<T>>, size: nat)
    requires Circle(bs, size)
    ensures var linked := if |bs| > 0 then bs[|bs| - 1 := bs[|bs| - 1].(next := |bs|)] else bs;
      Circle(linked + [NewBlock(size, 0)], size)
  {
  }

  /** The linking loop of lines 125-143. */
  method LinkBlocks<T>(count: nat, size: nat) returns (blocks: seq<Block<T>>)
    ensures |blocks| == count && (forall i :: 0 <= i < count ==> blocks[i] == NewBlock(size, Inc(i, count)))
  {
    blocks := [];
    var i := 0;
    while i != count
      invariant 0 <= i <= count && |blocks| == i && Circle(blocks, size)
      decreases count - i
    {
      CircleGrows(blocks, size);
      if i > 0 {
        blocks := blocks[i - 1 := blocks[i - 1].(next := i)];
      }
      blocks := blocks + [NewBlock(size, 0)];
      i := i + 1;
    }
  }

  /** Lines 116-124: the size of the blocks and their number, rounded up so that all blocks but one hold
      the requested elements. */
  method PlanBlocks(size: nat, maxBlock: nat, ghost m: nat) returns (count: nat, largest: nat)
    requires maxBlock == Pow2(m) && 2 <= maxBlock
    requires size + 1 <= Pow2(63) && size + 2 * maxBlock < TWO_64
    ensures IsSize(largest)
    ensures if size == 0 then count == 1 && largest == 1 else ConfigOk(Config(count, largest, size))
  {
    hide Pow2;
    Pow2Values();
    ghost var k: nat;
    largest, k := CeilToPow2(size + 1);
    count := 1;
    if largest > maxBlock * 2 {
      count := CountBlocks(size, maxBlock);
      largest := maxBlock;
      MaxBlockFits(m);
    } else if size == 0 {
      OneIsLeast(largest);
    }
  }

  /** Line 123 */
  method CountBlocks(size: nat, maxBlock: nat) returns (count: nat)
    requires 2 <= maxBlock
    ensures 1 <= count && (count - 1) * (maxBlock - 1) >= size
  {
    count := (size + maxBlock * 2 - 3) / (maxBlock - 1);
    BlockCount(size, maxBlock, count);
  }

  lemma MaxBlockFits(m: nat)
    requires 2 * Pow2(m) < Pow2(64)
    ensures m <= 63
  {
    hide Pow2;
    if m >= 64 { Pow2Monotone(64, m); }
  }

  /** The constructor, lines 105-161.  The assert of line 111 is the requirement on `maxBlock`; the
      others exclude sizes whose block arithmetic would wrap around. */
  method Construct<T>(size: nat, maxBlock: nat, ghost m: nat) returns (q: Queue<T>, ghost c: Config)
    requires maxBlock == Pow2(m) && 2 <= maxBlock
    requires size + 1 <= Pow2(63) && size + 2 * maxBlock < TWO_64
    ensures q.blocks != [] && c == Config(|q.blocks|, q.blocks[0].size, size)
    ensures q == FreshQueue<T>(c.count, c.size)
    ensures size >= 1 ==> ConfigOk(c)
    ensures size == 0 ==> c.count == 1 && c.size == 1
    ensures IsSize(c.size)
  {
    hide Circle, NewBlock, FreshQueue, Pow2, IsSize;
    var count, largest := PlanBlocks(size, maxBlock, m);
    assert count >= 1;
    hide ConfigOk;
    var blocks := LinkBlocks<T>(count, largest);
    c := Config(count, largest, size);
    CircleIsFresh(blocks, largest);
    CircleSizes(blocks, largest);
    q := Queue(blocks, 0, 0, largest, PIdle, CIdle, [], [], NotCalled, NoCall);
  }

  lemma OneIsLeast(r: nat)
    requires 1 <= r && forall j: nat :: 1 <= Pow2(j) ==> r <= Pow2(j)
    ensures r == 1
  {
    assert Pow2(0) == 1;
  }

  /** The block count makes all blocks but one hold the requested elements. */
  lemma BlockCount(size: nat, maxBlock: nat, count: nat)
    requires 2 <= maxBlock && count == (size + maxBlock * 2 - 3) / (maxBlock - 1)
    ensures 1 <= count && (count - 1) * (maxBlock - 1) >= size
  {
    var d := maxBlock - 1;
    var n := size + d + d - 1;
    assert n == count * d + n % d;
    assert (count - 1) * d == count * d - d;
  }
}
