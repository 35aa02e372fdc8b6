/** size_approx (lines 493-506 of include/message_queue/readerwriterqueue.h) load by load, while the other
    thread moves.  It may be called by either thread, so two walks are studied: by the consumer while the
    producer enqueues, and by the producer while the consumer dequeues. */
module SpscSizeWalk {
  import opened SpscQueue
  import opened SpscQueueProof
  import opened SpscQueueTheorems

  /** `first` is frontBlock_, `b` is block, `bf` is blockFront; named after the next load. */
  datatype Walker =
    | At496
    | At500(first: nat, b: nat, acc: nat)
    | At501(first: nat, b: nat, bf: nat, acc: nat)
    | At503(first: nat, b: nat, acc: nat)
    | Done(acc: nat)

  function WalkStep<T>(q: Queue<T>, w: Walker): Walker {
    match w
    case At496 => At500(q.frontBlock, q.frontBlock, 0)
    case At500(first, b, acc) => if b < |q.blocks| then At501(first, b, q.blocks[b].front, acc) else w
    case At501(first, b, bf, acc) =>
      if b < |q.blocks| then At503(first, b, acc + Positive(Dist(bf, q.blocks[b].tail, q.blocks[b].size))) else w
    case At503(first, b, acc) =>
      if b >= |q.blocks| then w
      else if q.blocks[b].next == first then Done(acc)
      else At500(first, q.blocks[b].next, acc)
    case Done(_) => w
  }

  function Positive(d: int): nat { if d < 0 then 0 else d }

  // ------------------------------------------------------------------ counts by ring position

  function CountAt<T>(bs: seq<Block<T>>, o: seq<nat>, i: nat): nat {
    if i < |o| && o[i] < |bs| then Positive(Count(bs[o[i]])) else 0
  }

  /** The elements in the blocks at positions `i` to `j`. */
  function Between<T>(bs: seq<Block<T>>, o: seq<nat>, i: nat, j: nat): nat
    decreases j
  {
    if j <= i then 0 else Between(bs, o, i, j - 1) + CountAt(bs, o, j - 1)
  }

  lemma {:induction false} BetweenSplit<T>(bs: seq<Block<T>>, o: seq<nat>, i: nat, m: nat, j: nat)
    requires i <= m <= j
    ensures Between(bs, o, i, j) == Between(bs, o, i, m) + Between(bs, o, m, j)
    decreases j
  {
    hide CountAt;
    if m < j { BetweenSplit(bs, o, i, m, j - 1); }
  }

  lemma OneAt<T>(bs: seq<Block<T>>, o: seq<nat>, i: nat)
    ensures Between(bs, o, i, i + 1) == CountAt(bs, o, i)
  {
    hide CountAt;
    assert Between(bs, o, i, i) == 0;
  }

  /** Pointwise at most, `d` positions further on. */
  lemma {:induction false} BetweenLe<T>(bs: seq<Block<T>>, o: seq<nat>, i: nat, j: nat, bs': seq<Block<T>>, o': seq<nat>, d: nat)
    requires forall x :: i <= x < j ==> CountAt(bs, o, x) <= CountAt(bs', o', x + d)
    ensures Between(bs, o, i, j) <= Between(bs', o', i + d, j + d)
    decreases j
  {
    hide CountAt;
    if i < j {
      assert CountAt(bs, o, j - 1) <= CountAt(bs', o', j - 1 + d);
      BetweenLe(bs, o, i, j - 1, bs', o', d);
    }
  }

  lemma {:induction false} BetweenIsCounts<T>(bs: seq<Block<T>>, o: seq<nat>, k: nat)
    requires k <= |o| && forall i :: 0 <= i < |o| ==> o[i] < |bs| && Count(bs[o[i]]) >= 0
    ensures Between(bs, o, 0, k) == Counts(bs, o[..k])
  {
    hide Count;
    if k > 0 {
      BetweenIsCounts(bs, o, k - 1);
      assert o[..k] == o[..k - 1] + [o[k - 1]];
      CountsSplit(bs, o[..k - 1], [o[k - 1]]);
      CountsOfOne(bs, o[k - 1]);
    }
  }

  lemma CountsOfOne<T>(bs: seq<Block<T>>, b: nat)
    requires b < |bs|
    ensures Counts(bs, [b]) == Count(bs[b])
  {
    hide Count;
    assert [b][1..] == [];
  }

  function Unpublished<T>(q: Queue<T>): nat {
    if q.prod.P601? || q.prod.P631? then 1 else 0
  }

  /** All round the ring there are the queued elements and the one not yet published. */
  lemma RingTotal<T>(q: Queue<T>, a: Ring, c: Config)
    requires Inv(q, a, c)
    ensures Between(q.blocks, a.order, 0, |a.order|) == Queued(q) + Unpublished(q)
  {
    hide Slots, Capacity, Returned, Items, SlotsOk, ProducerKnows, ConsumerKnows, Fifo, LinkAt, Between, Counts, CountAt, Lists;
    CountsPositive(q.blocks, a);
    BetweenIsCounts(q.blocks, a.order, a.t + 1);
    PublishedCounts(q.blocks, a);
    QueuedAtLeast(q, a, c);
    BetweenSplit(q.blocks, a.order, 0, a.t + 1, |a.order|);
    RestEmpty(q.blocks, a, q.prod.P601? || q.prod.P631?);
  }

  lemma CountsPositive<T>(bs: seq<Block<T>>, a: Ring)
    requires Shape(bs, a)
    ensures forall i :: 0 <= i < |a.order| ==> a.order[i] < |bs| && Count(bs[a.order[i]]) >= 0
  {
    hide LinkAt;
  }

  lemma PublishedCounts<T>(bs: seq<Block<T>>, a: Ring)
    requires Shape(bs, a)
    ensures Counts(bs, a.order[..a.t + 1]) == |Linked(bs, a)|
  {
    hide LinkAt, Items, Counts, BlockOk;
    CountsAreItems(bs, a.order[..a.t + 1]);
  }

  lemma RestEmpty<T>(bs: seq<Block<T>>, a: Ring, u: bool)
    requires Shape(bs, a) && Fill(bs, a, u)
    ensures Between(bs, a.order, a.t + 1, |a.order|) == if u then 1 else 0
  {
    hide LinkAt, BlockOk, Count;
    if u {
      BetweenSplit(bs, a.order, a.t + 1, a.t + 2, |a.order|);
      OneAt(bs, a.order, a.t + 1);
      NoneBetween(bs, a.order, a.t + 2, |a.order|);
    } else {
      NoneBetween(bs, a.order, a.t + 1, |a.order|);
    }
  }

  lemma {:induction false} NoneBetween<T>(bs: seq<Block<T>>, o: seq<nat>, i: nat, j: nat)
    requires forall x :: i <= x < j && x < |o| && o[x] < |bs| ==> Count(bs[o[x]]) == 0
    ensures Between(bs, o, i, j) == 0
    decreases j
  {
    hide Count;
    if i < j { NoneBetween(bs, o, i, j - 1); }
  }

  // ------------------------------------------------------------------ the consumer walks, the producer moves

  /** Between what was counted and what lies ahead: at most the elements behind position `k` were counted,
      and with those ahead of it they are at least `low`. */
  ghost predicate Cut<T>(bs: seq<Block<T>>, o: seq<nat>, k: nat, acc: nat, low: nat) {
    acc <= Between(bs, o, 0, k) && low <= acc + Between(bs, o, k, |o|)
  }

  /** The walker is at ring position `p`. */
  ghost predicate ConsumerWalks<T>(bs: seq<Block<T>>, o: seq<nat>, w: Walker, p: nat, low: nat) {
    match w
    case At496 => low <= Between(bs, o, 0, |o|)
    case At500(first, b, acc) => p < |o| && first == o[0] && b == o[p] && Cut(bs, o, p, acc, low)
    case At501(first, b, bf, acc) =>
      p < |o| && first == o[0] && b == o[p] && b < |bs| && bf == bs[b].front && Cut(bs, o, p, acc, low)
    case At503(first, b, acc) => p < |o| && first == o[0] && b == o[p] && Cut(bs, o, p + 1, acc, low)
    case Done(acc) => low <= acc <= Between(bs, o, 0, |o|)
  }

  /** `o` lists the blocks of a ring in the order of their links. */
  ghost predicate RingOf<T>(bs: seq<Block<T>>, o: seq<nat>) {
    && 1 <= |o|
    && (forall i :: 0 <= i < |o| ==> o[i] < |bs| && bs[o[i]].next == o[Inc(i, |o|)])
    && (forall i, j :: 0 <= i < j < |o| ==> o[i] != o[j])
  }

  lemma RingFacts<T>(q: Queue<T>, a: Ring, c: Config)
    requires Inv(q, a, c)
    ensures RingOf(q.blocks, a.order) && a.t < |a.order| && q.frontBlock == a.order[0]
  {
    hide Fill, Slots, Fifo, ProducerKnows, ConsumerKnows, Capacity, Returned, BlockOk;
    forall i | 0 <= i < |a.order| ensures q.blocks[a.order[i]].next == a.order[Inc(i, |a.order|)] {
      assert LinkAt(q.blocks, a.order, i);
    }
  }

  /** Lines 501-502: the count of one block goes from what lies ahead to what was counted. */
  lemma CutMoves<T>(bs: seq<Block<T>>, o: seq<nat>, p: nat, acc: nat, low: nat)
    requires p < |o| && o[p] < |bs| && Cut(bs, o, p, acc, low)
    ensures Cut(bs, o, p + 1, acc + Positive(Dist(bs[o[p]].front, bs[o[p]].tail, bs[o[p]].size)), low)
  {
    assert CountAt(bs, o, p) == Positive(Dist(bs[o[p]].front, bs[o[p]].tail, bs[o[p]].size));
    hide Between, CountAt, Dist;
    OneAt(bs, o, p);
    BetweenSplit(bs, o, 0, p, p + 1);
    BetweenSplit(bs, o, p, p + 1, |o|);
  }

  lemma CutEnds<T>(bs: seq<Block<T>>, o: seq<nat>, acc: nat, low: nat)
    requires Cut(bs, o, |o|, acc, low)
    ensures low <= acc <= Between(bs, o, 0, |o|)
  {
    NothingBehind(bs, o);
    hide Between;
  }

  lemma CutStarts<T>(bs: seq<Block<T>>, o: seq<nat>, low: nat)
    requires low <= Between(bs, o, 0, |o|)
    ensures Cut(bs, o, 0, 0, low)
  {
    NothingBefore(bs, o);
    hide Between;
  }

  /** Line 503 comes to the next position, or round to the first. */
  lemma NextPosition<T>(bs: seq<Block<T>>, o: seq<nat>, p: nat)
    requires RingOf(bs, o) && p < |o|
    ensures if p + 1 < |o| then bs[o[p]].next == o[p + 1] != o[0] else bs[o[p]].next == o[0]
  {
  }

  lemma WalkStepKeeps<T>(q: Queue<T>, a: Ring, c: Config, w: Walker, p: nat, low: nat) returns (p': nat)
    requires Inv(q, a, c) && ConsumerWalks(q.blocks, a.order, w, p, low)
    ensures ConsumerWalks(q.blocks, a.order, WalkStep(q, w), p', low)
  {
    hide Inv, Between, Count, Cut, RingOf, Dist;
    RingFacts(q, a, c);
    RingIds(q.blocks, a.order);
    var bs, o := q.blocks, a.order;
    p' := p;
    match w
    case At496 =>
      p' := 0;
      CutStarts(bs, o, low);
    case At500(_, _, _) =>
    case At501(_, _, _, acc) => CutMoves(bs, o, p, acc, low);
    case At503(_, _, acc) =>
      NextPosition(bs, o, p);
      if p + 1 < |o| { p' := p + 1; } else { CutEnds(bs, o, acc, low); }
    case Done(_) =>
  }

  lemma RingIds<T>(bs: seq<Block<T>>, o: seq<nat>)
    requires RingOf(bs, o)
    ensures 1 <= |o| && forall i :: 0 <= i < |o| ==> o[i] < |bs|
  {
  }

  lemma NothingBefore<T>(bs: seq<Block<T>>, o: seq<nat>)
    ensures Between(bs, o, 0, 0) == 0
  {
  }

  lemma NothingBehind<T>(bs: seq<Block<T>>, o: seq<nat>)
    ensures Between(bs, o, |o|, |o|) == 0
  {
  }

  /** Only the stores of lines 568 and 598 change a `tail` or a `size` in the ring, none changes a `front`. */
  predicate InTailBlock<T>(p: Producer<T>) {
    p.PIdle? || p.PCrash? || p.P552? || p.P554? || p.P557? || p.P564? || p.P572? || p.P572b? || p.P581?
  }

  lemma TailBlockStores<T>(q: Queue<T>, maxBlock: nat, b: nat)
    requires b < |q.blocks| && InTailBlock(q.prod)
    ensures var bs := ProdStep(q, maxBlock).blocks; |bs| >= |q.blocks| && SameItemsHeld(q.blocks[b], bs[b])
  {
    hide NewBlock, Queued, Inc;
  }

  lemma OtherStores<T>(q: Queue<T>, maxBlock: nat, b: nat)
    requires b < |q.blocks| && !InTailBlock(q.prod) && !q.prod.P568? && !q.prod.P598?
    ensures var bs := ProdStep(q, maxBlock).blocks; |bs| >= |q.blocks| && SameItemsHeld(q.blocks[b], bs[b])
  {
    hide NewBlock, Queued, Inc;
  }

  lemma ProducerStores<T>(q: Queue<T>, maxBlock: nat, b: nat)
    requires b < |q.blocks| && !q.prod.P568? && !q.prod.P598?
    ensures var bs := ProdStep(q, maxBlock).blocks;
      |bs| >= |q.blocks| && SameItemsHeld(q.blocks[b], bs[b])
  {
    hide ProdStep, SameItemsHeld, InTailBlock;
    if InTailBlock(q.prod) { TailBlockStores(q, maxBlock, b); } else { OtherStores(q, maxBlock, b); }
  }

  predicate SameItemsHeld<T>(b: Block<T>, b': Block<T>) {
    b'.front == b.front && b'.tail == b.tail && b'.size == b.size
  }

  lemma CountAtHeld<T>(bs: seq<Block<T>>, bs': seq<Block<T>>, o: seq<nat>, i: nat)
    requires i < |o| && o[i] < |bs| && o[i] < |bs'|
    requires SameItemsHeld(bs[o[i]], bs'[o[i]]) || Count(bs'[o[i]]) >= Count(bs[o[i]])
    ensures CountAt(bs, o, i) <= CountAt(bs', o, i)
  {
  }

  lemma TailAdvances<T>(b: Block<T>)
    requires BlockOk(b) && Inc(b.tail, b.size) != b.localFront
    ensures Count(b.(tail := Inc(b.tail, b.size))) == Count(b) + 1
  {
    IncDist(b.tail, b.front, b.size);
  }

  lemma ProducerPublishes<T>(q: Queue<T>, a: Ring, c: Config, maxBlock: nat, i: nat)
    requires Inv(q, a, c) && i < |a.order| && (q.prod.P568? || q.prod.P598?)
    ensures a.order[i] < |q.blocks|
    ensures var b, r := a.order[i], ProdStep(q, maxBlock).blocks;
      |r| == |q.blocks| && r[b].front == q.blocks[b].front && Count(r[b]) >= Count(q.blocks[b])
  {
    hide Fill, Slots, Fifo, ConsumerKnows, Capacity, Returned, SlotsOk, Items, LinkAt, BlockOk, Count, Detached;
    var at := if q.prod.P568? then a.order[a.t] else q.prod.nb;
    if q.prod.P598? {
      NextIsEmpty(q, a, c);
      EmptyHasRoom(q.blocks[q.prod.nb]);
    }
    TailAdvances(q.blocks[at]);
  }

  /** The producer's step adds elements to ring blocks and takes none away. */
  lemma ProducerGrows<T>(q: Queue<T>, a: Ring, c: Config, maxBlock: nat)
    requires Inv(q, a, c)
    ensures Grown(q.blocks, ProdStep(q, maxBlock).blocks, a.order)
  {
    hide Inv, ProdStep, Count, RingOf, SameItemsHeld;
    RingFacts(q, a, c);
    RingIds(q.blocks, a.order);
    var bs := ProdStep(q, maxBlock).blocks;
    forall i | 0 <= i < |a.order|
      ensures a.order[i] < |bs| && bs[a.order[i]].front == q.blocks[a.order[i]].front
           && CountAt(q.blocks, a.order, i) <= CountAt(bs, a.order, i)
    {
      if q.prod.P568? || q.prod.P598? {
        ProducerPublishes(q, a, c, maxBlock, i);
      } else {
        ProducerStores(q, maxBlock, a.order[i]);
        HeldFront(q.blocks[a.order[i]], bs[a.order[i]]);
      }
      CountAtHeld(q.blocks, bs, a.order, i);
    }
  }

  lemma HeldFront<T>(b: Block<T>, b': Block<T>)
    requires SameItemsHeld(b, b')
    ensures b'.front == b.front
  {
  }

  ghost predicate Grown<T>(bs: seq<Block<T>>, bs': seq<Block<T>>, o: seq<nat>) {
    forall i :: 0 <= i < |o| ==>
      o[i] < |bs| && o[i] < |bs'| && bs'[o[i]].front == bs[o[i]].front && CountAt(bs, o, i) <= CountAt(bs', o, i)
  }

  /** A walker's account stands when counts grow and the ring stays. */
  lemma CutGrows<T>(bs: seq<Block<T>>, bs': seq<Block<T>>, o: seq<nat>, k: nat, acc: nat, low: nat)
    requires k <= |o| && Cut(bs, o, k, acc, low) && forall i :: 0 <= i < |o| ==> CountAt(bs, o, i) <= CountAt(bs', o, i + 0)
    ensures Cut(bs', o, k, acc, low)
  {
    hide CountAt, Between;
    BetweenLe(bs, o, 0, k, bs', o, 0);
    BetweenLe(bs, o, k, |o|, bs', o, 0);
  }

  lemma GrowKeeps<T>(bs: seq<Block<T>>, bs': seq<Block<T>>, o: seq<nat>, w: Walker, p: nat, low: nat)
    requires ConsumerWalks(bs, o, w, p, low) && Grown(bs, bs', o)
    ensures ConsumerWalks(bs', o, w, p, low)
  {
    hide CountAt, Between, Cut;
    if w.At496? || w.Done? {
      BetweenLe(bs, o, 0, |o|, bs', o, 0);
    } else {
      CutGrows(bs, bs', o, if w.At503? then p + 1 else p, w.acc, low);
    }
  }

  /** Everything up to a cut not behind the insertion stays, and what lies ahead of it grows. */
  lemma CutBefore<T>(bs: seq<Block<T>>, o: seq<nat>, t: nat, o': seq<nat>, k: nat, acc: nat, low: nat)
    requires k <= t + 1 <= |o| && |o'| == |o| + 1 && SameOrder(bs, o, o', t) && Cut(bs, o, k, acc, low)
    ensures Cut(bs, o', k, acc, low)
  {
    hide CountAt, Between;
    BetweenLe(bs, o, 0, k, bs, o', 0);
    BetweenSplit(bs, o, k, t + 1, |o|);
    BetweenSplit(bs, o', k, t + 1, |o'|);
    BetweenSplit(bs, o', t + 1, t + 2, |o'|);
    BetweenLe(bs, o, k, t + 1, bs, o', 0);
    BetweenLe(bs, o, t + 1, |o|, bs, o', 1);
  }

  /** Everything up to a cut behind the insertion grows, and what lies ahead of it stays. */
  lemma CutBehind<T>(bs: seq<Block<T>>, o: seq<nat>, t: nat, o': seq<nat>, k: nat, acc: nat, low: nat)
    requires t + 1 <= k <= |o| && |o'| == |o| + 1 && SameOrder(bs, o, o', t) && Cut(bs, o, k, acc, low)
    ensures Cut(bs, o', k + 1, acc, low)
  {
    hide CountAt, Between;
    BetweenSplit(bs, o, 0, t + 1, k);
    BetweenSplit(bs, o', 0, t + 1, k + 1);
    BetweenSplit(bs, o', t + 1, t + 2, k + 1);
    BetweenLe(bs, o, 0, t + 1, bs, o', 0);
    BetweenLe(bs, o, t + 1, k, bs, o', 1);
    BetweenLe(bs, o, k, |o|, bs, o', 1);
  }

  lemma AllGrows<T>(bs: seq<Block<T>>, o: seq<nat>, t: nat, o': seq<nat>)
    requires t < |o| && |o'| == |o| + 1 && SameOrder(bs, o, o', t)
    ensures Between(bs, o, 0, |o|) <= Between(bs, o', 0, |o'|)
  {
    hide CountAt, Between;
    BetweenSplit(bs, o, 0, t + 1, |o|);
    BetweenSplit(bs, o', 0, t + 1, |o'|);
    BetweenSplit(bs, o', t + 1, t + 2, |o'|);
    BetweenLe(bs, o, 0, t + 1, bs, o', 0);
    BetweenLe(bs, o, t + 1, |o|, bs, o', 1);
  }

  /** A block inserted behind position `t` is counted if the walker has yet to come to it, and missed if it
      is past; both are within the bounds. */
  lemma InsertKeeps<T>(bs: seq<Block<T>>, o: seq<nat>, t: nat, nb: nat, o': seq<nat>, w: Walker, p: nat, low: nat) returns (p': nat)
    requires ConsumerWalks(bs, o, w, p, low) && t < |o| && o' == o[..t + 1] + [nb] + o[t + 1..]
    ensures ConsumerWalks(bs, o', w, p', low)
  {
    InsertOrder(bs, o, t, nb, o');
    hide CountAt, Between, SameOrder, Cut;
    p' := if p <= t then p else p + 1;
    var k := if w.At503? then p + 1 else p;
    if w.At496? || w.Done? {
      AllGrows(bs, o, t, o');
    } else if p <= t {
      CutBefore(bs, o, t, o', k, w.acc, low);
    } else {
      CutBehind(bs, o, t, o', k, w.acc, low);
    }
  }

  ghost predicate SameOrder<T>(bs: seq<Block<T>>, o: seq<nat>, o': seq<nat>, t: nat) {
    && (forall x :: 0 <= x < t + 1 ==> CountAt(bs, o, x) <= CountAt(bs, o', x + 0))
    && (forall x :: t + 1 <= x < |o| ==> CountAt(bs, o, x) <= CountAt(bs, o', x + 1))
  }

  lemma InsertOrder<T>(bs: seq<Block<T>>, o: seq<nat>, t: nat, nb: nat, o': seq<nat>)
    requires t < |o| && o' == o[..t + 1] + [nb] + o[t + 1..]
    ensures |o'| == |o| + 1 && SameOrder(bs, o, o', t)
    ensures forall x :: 0 <= x <= t ==> o'[x] == o[x]
    ensures forall x :: t + 1 <= x < |o| ==> o'[x + 1] == o[x]
  {
  }

  lemma ProducerStepKeeps<T>(q: Queue<T>, a: Ring, c: Config, w: Walker, p: nat, low: nat, maxBlock: nat)
    returns (a': Ring, p': nat)
    requires Inv(q, a, c) && ConsumerWalks(q.blocks, a.order, w, p, low)
    ensures Inv(ProdStep(q, maxBlock), a', c) && ConsumerWalks(ProdStep(q, maxBlock).blocks, a'.order, w, p', low)
  {
    hide Inv, ProdStep, ConsumerWalks;
    a' := ProducerKeeps(q, a, c, maxBlock);
    ProducerGrows(q, a, c, maxBlock);
    var bs := ProdStep(q, maxBlock).blocks;
    GrowKeeps(q.blocks, bs, a.order, w, p, low);
    p' := p;
    if a'.order != a.order {
      p' := InsertKeeps(bs, a.order, a.t, q.prod.nb, a'.order, w, p, low);
    }
  }

  /** What happens between two of the walker's loads. */
  datatype Turn<T> = Walks | Moves(a: Action<T>)

  function Walked<T>(q: Queue<T>, turns: seq<Turn<T>>, maxBlock: nat): (Queue<T>, Walker) {
    if turns == [] then (q, At496) else
    var (before, w) := Walked(q, turns[..|turns| - 1], maxBlock);
    match turns[|turns| - 1]
    case Walks => (before, WalkStep(before, w))
    case Moves(a) => (Step(before, a, maxBlock), w)
  }

  predicate ProducerOnly<T>(turns: seq<Turn<T>>) {
    forall i :: 0 <= i < |turns| ==> turns[i].Walks? || turns[i].a.Enqueue? || turns[i].a.ProducerRuns?
  }

  lemma {:induction false} ConsumerWalked<T>(q: Queue<T>, a: Ring, c: Config, turns: seq<Turn<T>>, maxBlock: nat)
    returns (a': Ring, p: nat)
    requires Inv(q, a, c) && ProducerOnly(turns)
    ensures var (r, w) := Walked(q, turns, maxBlock);
      Inv(r, a', c) && ConsumerWalks(r.blocks, a'.order, w, p, Between(q.blocks, a.order, 0, |a.order|))
  {
    hide Inv, ProdStep, WalkStep, Between;
    if turns == [] {
      a', p := a, 0;
    } else {
      var n := |turns| - 1;
      a', p := ConsumerWalked(q, a, c, turns[..n], maxBlock);
      var (r, w) := Walked(q, turns[..n], maxBlock);
      var low := Between(q.blocks, a.order, 0, |a.order|);
      hide ConsumerWalks;
      match turns[n]
      case Walks => p := WalkStepKeeps(r, a', c, w, p, low);
      case Moves(m) =>
        if m.ProducerRuns? {
          a', p := ProducerStepKeeps(r, a', c, w, p, low, maxBlock);
        } else if r.prod.PIdle? {
          CallEnqueue(r, a', c, m.x, m.mode);
        }
    }
  }

  /** size_approx called by the consumer while the producer enqueues, on every schedule: the answer is at
      least what was queued when the call began and at most what is queued when it ends, plus an element
      that is in its block but not yet published. */
  lemma ConsumerSizeBounds<T>(c: Config, schedule: seq<Action<T>>, turns: seq<Turn<T>>, maxBlock: nat)
    requires ConfigOk(c) && ProducerOnly(turns)
    ensures var q := Run(FreshQueue<T>(c.count, c.size), schedule, maxBlock);
      var (r, w) := Walked(q, turns, maxBlock);
      w.Done? ==> Queued(q) <= w.acc <= Queued(r) + Unpublished(r)
  {
    hide Inv, Run, FreshQueue, Walked, Between;
    var a := RunKeeps(c, schedule, maxBlock);
    var q := Run(FreshQueue<T>(c.count, c.size), schedule, maxBlock);
    var a', p := ConsumerWalked(q, a, c, turns, maxBlock);
    RingTotal(q, a, c);
    RingTotal(Walked(q, turns, maxBlock).0, a', c);
  }

  // ------------------------------------------------------------------ the producer walks, the consumer moves

  /** Counts only shrink here: what was counted behind position `k` is at least what is there now, and with
      what lies ahead it is at most `high`. */
  ghost predicate Ceiling<T>(bs: seq<Block<T>>, l: seq<nat>, k: nat, acc: nat, high: nat) {
    Between(bs, l, 0, k) <= acc && acc + Between(bs, l, k, |l|) <= high
  }

  /** The walker is at position `p` of the ring `l` as it was when the walk began. */
  ghost predicate ProducerWalks<T>(bs: seq<Block<T>>, l: seq<nat>, w: Walker, p: nat, high: nat) {
    match w
    case At496 => Between(bs, l, 0, |l|) <= high
    case At500(first, b, acc) => p < |l| && first == l[0] && b == l[p] && Ceiling(bs, l, p, acc, high)
    case At501(first, b, bf, acc) =>
      && p < |l| && first == l[0] && b == l[p] && b < |bs|
      && var d := Positive(Dist(bf, bs[b].tail, bs[b].size));
      && CountAt(bs, l, p) <= d
      && Between(bs, l, 0, p) <= acc && acc + d + Between(bs, l, p + 1, |l|) <= high
    case At503(first, b, acc) => p < |l| && first == l[0] && b == l[p] && Ceiling(bs, l, p + 1, acc, high)
    case Done(acc) => Between(bs, l, 0, |l|) <= acc <= high
  }

  /** `o` is `l` read from its position `r` on. */
  ghost predicate Turned(l: seq<nat>, o: seq<nat>, r: nat) {
    r < |l| == |o| && forall i :: 0 <= i < |o| ==> o[i] == if i + r < |l| then l[i + r] else l[i + r - |l|]
  }

  lemma TurnOnce(l: seq<nat>, a: Ring, r: nat)
    requires 1 <= a.t < |a.order| && Turned(l, a.order, r)
    ensures Turned(l, Rotated(a).order, Inc(r, |l|))
  {
    RotateAt(a);
    hide Rotated;
  }

  /** All round the ring it does not matter where one starts. */
  lemma TurnedTotal<T>(bs: seq<Block<T>>, l: seq<nat>, o: seq<nat>, r: nat)
    requires Turned(l, o, r)
    ensures Between(bs, l, 0, |l|) == Between(bs, o, 0, |o|)
  {
    TurnedCounts(bs, l, o, r);
    hide CountAt, Between, Turned;
    var n := |l|;
    BetweenSplit(bs, l, 0, r, n);
    BetweenSplit(bs, o, 0, n - r, n);
    BetweenEq(bs, o, 0, n - r, l, r);
    BetweenEq(bs, l, 0, r, o, n - r);
  }

  lemma TurnedCounts<T>(bs: seq<Block<T>>, l: seq<nat>, o: seq<nat>, r: nat)
    requires Turned(l, o, r)
    ensures r < |l| == |o|
    ensures forall x :: 0 <= x < |l| - r ==> CountAt(bs, o, x) == CountAt(bs, l, x + r)
    ensures forall x :: 0 <= x < r ==> CountAt(bs, l, x) == CountAt(bs, o, x + (|l| - r))
  {
  }

  lemma {:induction false} BetweenEq<T>(bs: seq<Block<T>>, o: seq<nat>, i: nat, j: nat, o': seq<nat>, d: nat)
    requires forall x :: i <= x < j ==> CountAt(bs, o, x) == CountAt(bs, o', x + d)
    ensures Between(bs, o, i, j) == Between(bs, o', i + d, j + d)
    decreases j
  {
    hide CountAt;
    if i < j {
      assert CountAt(bs, o, j - 1) == CountAt(bs, o', j - 1 + d);
      BetweenEq(bs, o, i, j - 1, o', d);
    }
  }

  lemma CeilingMoves<T>(bs: seq<Block<T>>, l: seq<nat>, p: nat, acc: nat, d: nat, high: nat)
    requires p < |l| && CountAt(bs, l, p) <= d
    requires Between(bs, l, 0, p) <= acc && acc + d + Between(bs, l, p + 1, |l|) <= high
    ensures Ceiling(bs, l, p + 1, acc + d, high)
  {
    hide Between, CountAt;
    OneAt(bs, l, p);
    BetweenSplit(bs, l, 0, p, p + 1);
  }

  lemma CeilingReads<T>(bs: seq<Block<T>>, l: seq<nat>, p: nat, acc: nat, high: nat)
    requires p < |l| && l[p] < |bs| && Ceiling(bs, l, p, acc, high)
    ensures var d := Positive(Dist(bs[l[p]].front, bs[l[p]].tail, bs[l[p]].size));
      CountAt(bs, l, p) <= d && acc + d + Between(bs, l, p + 1, |l|) <= high
  {
    assert CountAt(bs, l, p) == Positive(Dist(bs[l[p]].front, bs[l[p]].tail, bs[l[p]].size));
    hide Between, CountAt, Dist;
    OneAt(bs, l, p);
    BetweenSplit(bs, l, p, p + 1, |l|);
  }

  lemma CeilingEnds<T>(bs: seq<Block<T>>, l: seq<nat>, acc: nat, high: nat)
    requires Ceiling(bs, l, |l|, acc, high)
    ensures Between(bs, l, 0, |l|) <= acc <= high
  {
    NothingBehind(bs, l);
    hide Between;
  }

  lemma CeilingStarts<T>(bs: seq<Block<T>>, l: seq<nat>, high: nat)
    requires Between(bs, l, 0, |l|) <= high
    ensures Ceiling(bs, l, 0, 0, high)
  {
    NothingBefore(bs, l);
    hide Between;
  }

  lemma ProducerWalkStep<T>(q: Queue<T>, l: seq<nat>, w: Walker, p: nat, high: nat) returns (p': nat)
    requires RingOf(q.blocks, l) && ProducerWalks(q.blocks, l, w, p, high) && (w.At496? ==> q.frontBlock == l[0])
    ensures ProducerWalks(q.blocks, l, WalkStep(q, w), p', high)
    ensures !WalkStep(q, w).At496?
  {
    RingIds(q.blocks, l);
    hide Between, Count, Ceiling, RingOf, Dist, CountAt;
    var bs := q.blocks;
    p' := p;
    match w
    case At496 =>
      p' := 0;
      CeilingStarts(bs, l, high);
    case At500(_, _, acc) =>
      CeilingReads(bs, l, p, acc, high);
      CeilingBehind(bs, l, p, acc, high);
    case At501(_, b, bf, acc) => CeilingMoves(bs, l, p, acc, Positive(Dist(bf, bs[b].tail, bs[b].size)), high);
    case At503(_, _, acc) =>
      NextPosition(bs, l, p);
      if p + 1 < |l| { p' := p + 1; } else { CeilingEnds(bs, l, acc, high); }
    case Done(_) =>
  }

  lemma CeilingBehind<T>(bs: seq<Block<T>>, l: seq<nat>, p: nat, acc: nat, high: nat)
    requires Ceiling(bs, l, p, acc, high)
    ensures Between(bs, l, 0, p) <= acc
  {
  }

  // ------------------------------------------------------------------ the consumer's steps

  /** What a step of the consumer leaves of a block: everything but `front`, which only line 324 stores, and
      the shadow index and storage it owns. */
  predicate SameBounds<T>(b: Block<T>, b': Block<T>) {
    b'.tail == b.tail && b'.size == b.size && b'.next == b.next
  }

  lemma ConsumerStores<T>(q: Queue<T>, b: nat)
    requires b < |q.blocks|
    ensures var bs := ConsStep(q).blocks;
      |bs| == |q.blocks| && SameBounds(q.blocks[b], bs[b]) && (!q.cons.C324? ==> bs[b].front == q.blocks[b].front)
  {
    hide Inc, Queued;
  }

  lemma ConsumerDrops<T>(q: Queue<T>, a: Ring, c: Config, i: nat)
    requires Inv(q, a, c) && i < |a.order| && q.cons.C324?
    ensures a.order[i] < |q.blocks|
    ensures var b, r := a.order[i], ConsStep(q).blocks; |r| == |q.blocks| && Count(r[b]) <= Count(q.blocks[b])
  {
    hide Fill, Slots, Fifo, ProducerKnows, Capacity, Returned, SlotsOk, Items, LinkAt, BlockOk, Count;
    PopItems(q.blocks[a.order[0]]);
  }

  ghost predicate Shrunk<T>(bs: seq<Block<T>>, bs': seq<Block<T>>, o: seq<nat>) {
    forall i :: 0 <= i < |o| ==>
      o[i] < |bs| && o[i] < |bs'| && SameBounds(bs[o[i]], bs'[o[i]]) && CountAt(bs', o, i) <= CountAt(bs, o, i)
  }

  lemma CountAtDropped<T>(bs: seq<Block<T>>, bs': seq<Block<T>>, o: seq<nat>, i: nat)
    requires i < |o| && o[i] < |bs| && o[i] < |bs'|
    requires (SameBounds(bs[o[i]], bs'[o[i]]) && bs'[o[i]].front == bs[o[i]].front) || Count(bs'[o[i]]) <= Count(bs[o[i]])
    ensures CountAt(bs', o, i) <= CountAt(bs, o, i)
  {
  }

  /** The consumer's step takes elements from ring blocks and adds none. */
  lemma ConsumerShrinks<T>(q: Queue<T>, a: Ring, c: Config)
    requires Inv(q, a, c)
    ensures Shrunk(q.blocks, ConsStep(q).blocks, a.order)
  {
    hide Inv, ConsStep, Count, RingOf, SameBounds, CountAt;
    RingFacts(q, a, c);
    RingIds(q.blocks, a.order);
    var bs := ConsStep(q).blocks;
    forall i | 0 <= i < |a.order|
      ensures a.order[i] < |bs| && SameBounds(q.blocks[a.order[i]], bs[a.order[i]]) && CountAt(bs, a.order, i) <= CountAt(q.blocks, a.order, i)
    {
      ConsumerStores(q, a.order[i]);
      if q.cons.C324? { ConsumerDrops(q, a, c, i); }
      CountAtDropped(q.blocks, bs, a.order, i);
    }
  }

  lemma ShrunkTurned<T>(bs: seq<Block<T>>, bs': seq<Block<T>>, l: seq<nat>, o: seq<nat>, r: nat)
    requires Shrunk(bs, bs', o) && Turned(l, o, r)
    ensures Shrunk(bs, bs', l)
  {
    forall i | 0 <= i < |l|
      ensures l[i] < |bs| && l[i] < |bs'| && SameBounds(bs[l[i]], bs'[l[i]]) && CountAt(bs', l, i) <= CountAt(bs, l, i)
    {
      var x := if r <= i then i - r else i + |l| - r;
      assert o[x] == l[i] && CountAt(bs', o, x) <= CountAt(bs, o, x);
    }
  }

  lemma RingStays<T>(bs: seq<Block<T>>, bs': seq<Block<T>>, l: seq<nat>)
    requires RingOf(bs, l) && Shrunk(bs, bs', l)
    ensures RingOf(bs', l)
  {
    hide CountAt;
  }

  lemma CeilingShrinks<T>(bs: seq<Block<T>>, bs': seq<Block<T>>, l: seq<nat>, k: nat, acc: nat, high: nat)
    requires k <= |l| && Ceiling(bs, l, k, acc, high) && forall i :: 0 <= i < |l| ==> CountAt(bs', l, i) <= CountAt(bs, l, i + 0)
    ensures Ceiling(bs', l, k, acc, high)
  {
    hide CountAt, Between;
    BetweenLe(bs', l, 0, k, bs, l, 0);
    BetweenLe(bs', l, k, |l|, bs, l, 0);
  }

  lemma ShrinkKeeps<T>(bs: seq<Block<T>>, bs': seq<Block<T>>, l: seq<nat>, w: Walker, p: nat, high: nat)
    requires ProducerWalks(bs, l, w, p, high) && Shrunk(bs, bs', l)
    ensures ProducerWalks(bs', l, w, p, high)
  {
    hide CountAt, Between, Ceiling, Dist;
    if w.At496? || w.Done? {
      BetweenLe(bs', l, 0, |l|, bs, l, 0);
    } else if w.At501? {
      BetweenLe(bs', l, 0, p, bs, l, 0);
      BetweenLe(bs', l, p + 1, |l|, bs, l, 0);
    } else {
      CeilingShrinks(bs, bs', l, if w.At503? then p + 1 else p, w.acc, high);
    }
  }

  predicate ConsumerOnly<T>(turns: seq<Turn<T>>) {
    forall i :: 0 <= i < |turns| ==> turns[i].Walks? || turns[i].a.Dequeue? || turns[i].a.ConsumerRuns?
  }

  /** The walk goes round `l`, of which the ring is now the rotation by `r`. */
  ghost predicate ProducerWalking<T>(q: Queue<T>, a: Ring, l: seq<nat>, r: nat, w: Walker, p: nat, high: nat) {
    RingOf(q.blocks, l) && Turned(l, a.order, r) && ProducerWalks(q.blocks, l, w, p, high)
  }

  lemma ConsumerStepKeeps<T>(q: Queue<T>, a: Ring, c: Config, l: seq<nat>, r: nat, w: Walker, p: nat, high: nat)
    returns (a': Ring, r': nat)
    requires Inv(q, a, c) && ProducerWalking(q, a, l, r, w, p, high)
    ensures Inv(ConsStep(q), a', c) && ProducerWalking(ConsStep(q), a', l, r', w, p, high)
  {
    hide Inv, ConsStep, ProducerWalks, RingOf, Turned, Shrunk;
    a' := SpscQueueProof.ConsumerKeeps(q, a, c);
    ConsumerShrinks(q, a, c);
    ShrunkTurned(q.blocks, ConsStep(q).blocks, l, a.order, r);
    ShrinkKeeps(q.blocks, ConsStep(q).blocks, l, w, p, high);
    RingStays(q.blocks, ConsStep(q).blocks, l);
    r' := r;
    if a' != a {
      TurnOnce(l, a, r);
      r' := Inc(r, |l|);
    }
  }

  /** Before the walk begins it may as well go round the ring as it is now. */
  lemma StartHere<T>(q: Queue<T>, a: Ring, c: Config, l: seq<nat>, r: nat, p: nat, high: nat)
    requires Inv(q, a, c) && ProducerWalking(q, a, l, r, At496, p, high)
    ensures ProducerWalking(q, a, a.order, 0, At496, 0, high) && q.frontBlock == a.order[0]
  {
    RingFacts(q, a, c);
    TurnedTotal(q.blocks, l, a.order, r);
    hide Inv, RingOf, Between;
  }

  lemma {:induction false} ProducerWalked<T>(q: Queue<T>, a: Ring, c: Config, turns: seq<Turn<T>>, maxBlock: nat)
    returns (a': Ring, l: seq<nat>, t: nat, p: nat)
    requires Inv(q, a, c) && ConsumerOnly(turns)
    ensures var (r, w) := Walked(q, turns, maxBlock);
      Inv(r, a', c) && r.prod == q.prod
      && ProducerWalking(r, a', l, t, w, p, Between(q.blocks, a.order, 0, |a.order|))
  {
    hide Inv, ConsStep, WalkStep, Between;
    if turns == [] {
      a', l, t, p := a, a.order, 0, 0;
      RingFacts(q, a, c);
    } else {
      var n := |turns| - 1;
      a', l, t, p := ProducerWalked(q, a, c, turns[..n], maxBlock);
      var (r, w) := Walked(q, turns[..n], maxBlock);
      var high := Between(q.blocks, a.order, 0, |a.order|);
      match turns[n]
      case Walks =>
        if w.At496? {
          StartHere(r, a', c, l, t, p, high);
          l, t, p := a'.order, 0, 0;
        }
        p := ProducerWalkStep(r, l, w, p, high);
      case Moves(m) =>
        hide ProducerWalking;
        if m.ConsumerRuns? {
          ConsumerLeavesProducer(r);
          a', t := ConsumerStepKeeps(r, a', c, l, t, w, p, high);
        } else {
          ConsumerCalls(r, a', c, l, t, w, p, high, m.op);
        }
    }
  }

  lemma ConsumerLeavesProducer<T>(q: Queue<T>)
    ensures ConsStep(q).prod == q.prod
  {
  }

  lemma ConsumerCalls<T>(q: Queue<T>, a: Ring, c: Config, l: seq<nat>, t: nat, w: Walker, p: nat, high: nat, op: ConsumerOp)
    requires Inv(q, a, c) && ProducerWalking(q, a, l, t, w, p, high)
    ensures q.cons.CIdle? ==>
      Inv(StartDequeue(q, op), a, c) && ProducerWalking(StartDequeue(q, op), a, l, t, w, p, high)
  {
    hide Inv;
    if q.cons.CIdle? { CallDequeue(q, a, c, op); }
  }

  /** size_approx called by the producer while the consumer dequeues, on every schedule: the answer is at
      most what was queued when the call began and at least what is queued when it ends. */
  lemma ProducerSizeBounds<T>(c: Config, schedule: seq<Action<T>>, turns: seq<Turn<T>>, maxBlock: nat)
    requires ConfigOk(c) && ConsumerOnly(turns)
    requires Run(FreshQueue<T>(c.count, c.size), schedule, maxBlock).prod.PIdle?
    ensures var q := Run(FreshQueue<T>(c.count, c.size), schedule, maxBlock);
      var (r, w) := Walked(q, turns, maxBlock);
      w.Done? ==> Queued(r) <= w.acc <= Queued(q)
  {
    hide Inv, Run, FreshQueue, Walked, Between, RingOf;
    var a := RunKeeps(c, schedule, maxBlock);
    var q := Run(FreshQueue<T>(c.count, c.size), schedule, maxBlock);
    var a', l, t, p := ProducerWalked(q, a, c, turns, maxBlock);
    var r := Walked(q, turns, maxBlock).0;
    RingTotal(q, a, c);
    RingTotal(r, a', c);
    TurnedTotal(r.blocks, l, a'.order, t);
  }
}
