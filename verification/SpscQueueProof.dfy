/** The inductive invariant of the lock-free queue and what follows from it for every schedule. */
module SpscQueueProof {
  import opened Options
  import opened SpscQueue
  import opened Sequences

  /** The proof's view of the linked blocks: `order` lists them from the front block on in the order
      of the `next` pointers, and `order[t]` is the tail block. */
  datatype Ring = Ring(order: seq<nat>, t: nat)

  /** How the queue was constructed: `count` blocks of `size` slots to hold `request` elements. */
  datatype Config = Config(count: nat, size: nat, request: nat)

  ghost predicate ConfigOk(c: Config) {
    && 1 <= c.count && 2 <= c.size
    && (c.count == 1 ==> c.request <= c.size - 1)
    && (c.count > 1 ==> c.request <= (c.count - 1) * (c.size - 1))
  }

  /** Indices lie on the circle, `localTail` does not pass `tail`, and `localFront` has not passed
      `front`: seen from `localFront` the elements end before the circle closes. */
  ghost predicate BlockOk<T>(b: Block<T>) {
    && 2 <= b.size && |b.data| == b.size
    && b.front < b.size && b.tail < b.size && b.localFront < b.size && b.localTail < b.size
    && Dist(b.front, b.localTail, b.size) <= Dist(b.front, b.tail, b.size)
    && Dist(b.localFront, b.front, b.size) + Dist(b.front, b.tail, b.size) < b.size
  }

  function Count<T>(b: Block<T>): int {
    Dist(b.front, b.tail, b.size)
  }

  ghost predicate Full<T>(b: Block<T>) {
    Count(b) == b.size - 1
  }

  /** A slot holds an object exactly if it lies between front and tail, but for an element already
      moved out at the front (`taken`) and one constructed but not published at the tail (`extra`). */
  ghost predicate SlotsOk<T>(b: Block<T>, taken: bool, extra: bool)
    requires BlockOk(b)
  {
    forall j :: 0 <= j < b.size ==>
      (b.data[j].Some? <==> (Dist(b.front, j, b.size) < Count(b) && !(taken && j == b.front))
                            || (extra && j == b.tail))
  }

  /** `next` of the block at ring position `i` is the block at the following position. */
  ghost predicate LinkAt<T>(bs: seq<Block<T>>, order: seq<nat>, i: nat)
    requires i < |order| && order[i] < |bs|
  {
    bs[order[i]].next == order[Inc(i, |order|)]
  }

  ghost predicate Shape<T>(bs: seq<Block<T>>, a: Ring) {
    && a.t < |a.order| <= |bs|
    && (forall i :: 0 <= i < |a.order| ==> a.order[i] < |bs|)
    && (forall i, j :: 0 <= i < j < |a.order| ==> a.order[i] != a.order[j])
    && (forall i :: 0 <= i < |a.order| ==> LinkAt(bs, a.order, i))
    && (forall i :: 0 <= i < |a.order| ==> BlockOk(bs[a.order[i]]))
  }

  ghost predicate Fill<T>(bs: seq<Block<T>>, a: Ring, unpublished: bool)
    requires Shape(bs, a)
  {
    && (forall i :: 1 <= i < a.t ==> Full(bs[a.order[i]]))
    && (a.t >= 1 ==> Count(bs[a.order[a.t]]) >= 1)
    && (forall i :: a.t < i < |a.order| && !(unpublished && i == a.t + 1) ==> Count(bs[a.order[i]]) == 0)
    && (unpublished ==> a.t + 1 < |a.order| && Count(bs[a.order[a.t + 1]]) == 1)
  }

  /** `taken`: the consumer has moved the front element out; `extra`: the producer has constructed an
      element after the end of the block at that ring position. */
  ghost predicate Slots<T>(bs: seq<Block<T>>, a: Ring, taken: bool, extra: int)
    requires Shape(bs, a)
  {
    forall i :: 0 <= i < |a.order| ==> SlotsOk(bs[a.order[i]], i == 0 && taken, i == extra)
  }

  function ExtraAt<T>(p: Producer<T>, a: Ring): int {
    if p.P568? then a.t else if p.P598? then a.t + 1 else -1
  }

  /** The items of the listed blocks, block by block. */
  ghost function Lists<T>(bs: seq<Block<T>>, ids: seq<nat>): (r: seq<seq<Option<T>>>)
    requires forall i :: 0 <= i < |ids| ==> ids[i] < |bs|
    ensures |r| == |ids|
  {
    seq(|ids|, i requires 0 <= i < |ids| => Items(bs[ids[i]]))
  }

  /** The items from the front block to the tail block. */
  ghost function Linked<T>(bs: seq<Block<T>>, a: Ring): seq<Option<T>>
    requires Shape(bs, a)
  {
    Flatten(Lists(bs, a.order[..a.t + 1]))
  }

  /** The published elements not delivered yet, as the ring shows them. */
  ghost predicate Fifo<T>(bs: seq<Block<T>>, a: Ring, taken: bool, sent: seq<T>, got: seq<T>)
    requires Shape(bs, a)
  {
    && |got| <= |sent| && got == sent[..|got|]
    && (taken ==> |got| < |sent|)
    && Linked(bs, a) == if taken then [None] + Live(sent, |got| + 1) else Live(sent, |got|)
  }

  /** What the producer knows at each program counter. */
  ghost predicate ProducerKnows<T>(p: Producer<T>, bs: seq<Block<T>>, a: Ring)
    requires Shape(bs, a)
  {
    var n := |a.order|;
    var tl := bs[a.order[a.t]];
    var tailFull := a.t >= 1 ==> Full(tl);
    match p
    case PIdle => true
    case PCrash => false
    case P552(_, _) => true
    case P554(_, _, tb, lf) => tb == a.order[a.t] && lf == tl.localFront
    case P557(_, _, tb, bt, nt) =>
      tb == a.order[a.t] && bt == tl.tail && nt == Inc(bt, tl.size)
    case P564(_, tb, bt, nt) =>
      && tb == a.order[a.t] && bt == tl.tail && nt == Inc(bt, tl.size)
      && nt != tl.localFront
    case P568(x, tb, nt) =>
      && tb == a.order[a.t] && nt == Inc(tl.tail, tl.size) && nt != tl.localFront
      && tl.data[tl.tail] == Some(x)
    case P572(_, _, tb, seen) => tb == a.order[a.t] && tailFull && seen >= tl.size - 1
    case P572b(_, _, tb, nx, seen) =>
      && tb == a.order[a.t] && tailFull && seen >= tl.size - 1
      && nx == a.order[Inc(a.t, n)]
    case P581(_, tb) => tb == a.order[a.t] && tailFull && a.t + 1 < n
    case P582(_, nb) => tailFull && a.t + 1 < n && nb == a.order[a.t + 1]
    case P583(_, nb, nbf) =>
      && tailFull && a.t + 1 < n && nb == a.order[a.t + 1] && nbf == bs[nb].front == bs[nb].localFront
    case P595(_, nb, nbt) =>
      && tailFull && a.t + 1 < n && nb == a.order[a.t + 1] && nbt == bs[nb].tail
      && bs[nb].localFront == bs[nb].front
    case P598(x, nb, nbt) =>
      && tailFull && a.t + 1 < n && nb == a.order[a.t + 1] && nbt == bs[nb].tail
      && bs[nb].localFront == bs[nb].front && bs[nb].data[nbt] == Some(x)
    case P601(x, nb) =>
      tailFull && a.t + 1 < n && nb == a.order[a.t + 1] && Items(bs[nb]) == [Some(x)]
    case P606(_, tb) => tb == a.order[a.t] && tailFull
    case P621(x, tb, nb) => tb == a.order[a.t] && tailFull && Detached(bs, a, x, nb)
    case P622(x, tb, nb) =>
      && tb == a.order[a.t] && tailFull && Detached(bs, a, x, nb) && bs[nb].next == tl.next
    case P631(x, nb) =>
      tailFull && a.t + 1 < n && nb == a.order[a.t + 1] && Items(bs[nb]) == [Some(x)]
  }

  /** The freshly allocated block holds `x` and is not linked yet. */
  ghost predicate Detached<T>(bs: seq<Block<T>>, a: Ring, x: T, nb: nat) {
    && nb < |bs| && nb !in a.order && |a.order| < |bs|
    && BlockOk(bs[nb]) && SlotsOk(bs[nb], false, false) && Count(bs[nb]) == 1 && Items(bs[nb]) == [Some(x)]
  }

  /** What the consumer knows at each program counter. */
  ghost predicate ConsumerKnows<T>(k: Consumer<T>, bs: seq<Block<T>>, a: Ring, sent: seq<T>, got: seq<T>)
    requires Shape(bs, a)
  {
    var f := bs[a.order[0]];
    match k
    case CIdle => true
    case CCrash => false
    case C308(_) => true
    case C310(_, fb) => fb == a.order[0]
    case C312(_, fb, bf) => fb == a.order[0] && bf == f.front
    case C317(_, fb, bf) => fb == a.order[0] && bf == f.front && Count(f) >= 1 && f.localTail != f.front
    case C324(fb, bf, v) =>
      && fb == a.order[0] && bf == f.front && Count(f) >= 1 && f.localTail != f.front
      && |got| < |sent| && v == sent[|got|]
    case C326(_, fb, sawEmpty) => fb == a.order[0] && (a.t == 0 ==> sawEmpty)
    case C329(_) => a.t >= 1
    case C330(_, fb) => fb == a.order[0] && a.t >= 1
    case C331(_, fb, bt) => fb == a.order[0] && a.t >= 1 && bt == f.tail == f.localTail
    case C340(_, fb) => fb == a.order[0] && a.t >= 1 && Count(f) == 0
    case C345(_, nb) => a.t >= 1 && Count(f) == 0 && nb == a.order[1]
    case C346(_, nb, nbf) => a.t >= 1 && Count(f) == 0 && nb == a.order[1] && nbf == bs[nb].front
    case C356(op, nb, nbf) =>
      && op != Peek
      && a.t >= 1 && Count(f) == 0 && nb == a.order[1] && nbf == bs[nb].front
      && bs[nb].localTail != nbf
    case C417(nb, nbf) => a.t >= 1 && Count(f) == 0 && nb == a.order[1] && nbf == bs[nb].front
  }

  ghost predicate Capacity<T>(bs: seq<Block<T>>, a: Ring, c: Config, largest: nat) {
    && ConfigOk(c)
    && c.count <= |a.order| && c.size <= largest
    && (forall i :: 0 <= i < |bs| ==> c.size <= bs[i].size)
  }

  /** What the threads' last answers say. */
  ghost predicate Returned<T>(p: EnqueueResult, r: DequeueResult<T>, idle: bool, sent: seq<T>, got: seq<T>, c: Config) {
    && (p.Refused? ==> c.request <= p.seen)
    && (r.Empty? ==> r.sawEmpty)
    && (r.Peeked? && idle ==> |got| < |sent| && r.v == sent[|got|])
    && (r.Took? && idle ==> 1 <= |got| && r.v == got[|got| - 1])
  }

  ghost predicate Inv<T>(q: Queue<T>, a: Ring, c: Config) {
    && Shape(q.blocks, a)
    && q.frontBlock == a.order[0] && q.tailBlock == a.order[a.t]
    && Fill(q.blocks, a, q.prod.P601? || q.prod.P631?)
    && Slots(q.blocks, a, q.cons.C324?, ExtraAt(q.prod, a))
    && Fifo(q.blocks, a, q.cons.C324?, q.sent, q.got)
    && ProducerKnows(q.prod, q.blocks, a)
    && ConsumerKnows(q.cons, q.blocks, a, q.sent, q.got)
    && Capacity(q.blocks, a, c, q.largest)
    && Returned(q.prodRet, q.consRet, q.cons.CIdle?, q.sent, q.got, c)
  }

  // ------------------------------------------------------------------ circular indices and items

  lemma IncDist(b: nat, from: nat, size: nat)
    requires 2 <= size && b < size && from < size && Inc(b, size) != from
    ensures Dist(from, Inc(b, size), size) == Dist(from, b, size) + 1
    ensures Ahead(from, Dist(from, b, size), size) == b
  {
  }

  lemma ItemsAt<T>(b: Block<T>)
    requires BlockOk(b)
    ensures |Items(b)| == Count(b)
    ensures forall k :: 0 <= k < Count(b) ==>
      0 <= Ahead(b.front, k, b.size) < b.size && Items(b)[k] == b.data[Ahead(b.front, k, b.size)]
  {
  }

  /** Publishing the slot at the tail appends it. */
  lemma PushItems<T>(b: Block<T>, x: T)
    requires BlockOk(b) && Inc(b.tail, b.size) != b.localFront && b.data[b.tail] == Some(x)
    ensures var b' := b.(tail := Inc(b.tail, b.size));
      BlockOk(b') && Items(b') == Items(b) + [Some(x)] && Count(b') == Count(b) + 1
  {
    var b' := b.(tail := Inc(b.tail, b.size));
    IncDist(b.tail, b.front, b.size);
    ItemsAt(b);
    ItemsAt(b');
    hide Items;
    assert Items(b') == Items(b) + [Some(x)];
  }

  /** Moving the front past an element drops it. */
  lemma PopItems<T>(b: Block<T>)
    requires BlockOk(b) && Count(b) >= 1 && b.localTail != b.front
    ensures var b' := b.(front := Inc(b.front, b.size));
      BlockOk(b') && Items(b') == Items(b)[1..] && Count(b') == Count(b) - 1
  {
    var b' := b.(front := Inc(b.front, b.size));
    ItemsAt(b);
    ItemsAt(b');
    hide Items;
    assert Count(b') == Count(b) - 1;
    assert forall k :: 0 <= k < Count(b') ==> Ahead(b'.front, k, b.size) == Ahead(b.front, k + 1, b.size);
    assert Items(b') == Items(b)[1..];
  }

  // ------------------------------------------------------------------ updating one block

  /** Replacing the block at ring position `p` leaves the others and the shape alone. */
  lemma UpdateAt<T>(bs: seq<Block<T>>, a: Ring, p: nat, b: Block<T>)
    requires Shape(bs, a) && p < |a.order| && BlockOk(b) && b.next == bs[a.order[p]].next
    ensures Shape(bs[a.order[p] := b], a)
    ensures forall i :: 0 <= i < |a.order| && i != p ==> bs[a.order[p] := b][a.order[i]] == bs[a.order[i]]
  {
    var bs' := bs[a.order[p] := b];
    forall i | 0 <= i < |a.order|
      ensures LinkAt(bs', a.order, i)
    {
      assert LinkAt(bs, a.order, i);
    }
  }

  lemma UpdateLists<T>(bs: seq<Block<T>>, a: Ring, p: nat, b: Block<T>)
    requires Shape(bs, a) && p < |a.order|
    ensures var ls := Lists(bs, a.order[..a.t + 1]);
      Lists(bs[a.order[p] := b], a.order[..a.t + 1]) == if p <= a.t then ls[p := Items(b)] else ls
  {
    hide Items, LinkAt, BlockOk;
  }

  /** The contents after replacing the block at ring position `p`. */
  lemma UpdateLinked<T>(bs: seq<Block<T>>, a: Ring, p: nat, b: Block<T>)
    returns (before: seq<Option<T>>, after: seq<Option<T>>)
    requires Shape(bs, a) && p < |a.order| && BlockOk(b) && b.next == bs[a.order[p]].next
    ensures Shape(bs[a.order[p] := b], a)
    ensures p > a.t ==> Linked(bs[a.order[p] := b], a) == Linked(bs, a)
    ensures p <= a.t ==>
      && Linked(bs, a) == before + Items(bs[a.order[p]]) + after
      && Linked(bs[a.order[p] := b], a) == before + Items(b) + after
    ensures p == 0 ==> before == []
    ensures p == a.t ==> after == []
  {
    hide Items, LinkAt, BlockOk, Flatten, Lists;
    UpdateAt(bs, a, p, b);
    UpdateLists(bs, a, p, b);
    var ls := Lists(bs, a.order[..a.t + 1]);
    before, after := [], [];
    if p <= a.t {
      ListsAt(bs, a, p);
      before, after := FlattenUpdate(ls, p, Items(b));
    }
  }

  lemma SlotsAt<T>(q: Queue<T>, a: Ring, c: Config, i: nat)
    requires Inv(q, a, c) && i < |a.order|
    ensures SlotsOk(q.blocks[a.order[i]], i == 0 && q.cons.C324?, i == ExtraAt(q.prod, a))
  {
    hide Fifo, ProducerKnows, ConsumerKnows, Fill, Capacity, Returned;
  }

  lemma SameItems<T>(b: Block<T>, b': Block<T>)
    requires BlockOk(b) && BlockOk(b') && b.size == b'.size && b.front == b'.front && b.tail == b'.tail
    requires forall j :: 0 <= j < b.size && Dist(b.front, j, b.size) < Count(b) ==> b.data[j] == b'.data[j]
    ensures Items(b) == Items(b')
  {
    ItemsAt(b);
    ItemsAt(b');
    hide Items;
    assert forall k :: 0 <= k < Count(b) ==> Dist(b.front, Ahead(b.front, k, b.size), b.size) == k;
    assert Items(b) == Items(b');
  }

  /** Refreshing a shadow index changes neither what a block holds nor what lives in it. */
  lemma ReloadFront<T>(b: Block<T>)
    requires BlockOk(b)
    ensures var b' := b.(localFront := b.front);
      BlockOk(b') && Items(b') == Items(b) && forall taken, extra :: SlotsOk(b, taken, extra) ==> SlotsOk(b', taken, extra)
  {
    SameItems(b, b.(localFront := b.front));
  }

  lemma ReloadTail<T>(b: Block<T>)
    requires BlockOk(b)
    ensures var b' := b.(localTail := b.tail);
      BlockOk(b') && Items(b') == Items(b) && forall taken, extra :: SlotsOk(b, taken, extra) ==> SlotsOk(b', taken, extra)
  {
    SameItems(b, b.(localTail := b.tail));
  }

  /** Constructing an element behind the last one. */
  lemma FillSlot<T>(b: Block<T>, taken: bool, x: T)
    requires BlockOk(b) && SlotsOk(b, taken, false) && Inc(b.tail, b.size) != b.localFront
    ensures b.tail < |b.data| && b.data[b.tail].None?
    ensures var b' := b.(data := b.data[b.tail := Some(x)]);
      BlockOk(b') && Items(b') == Items(b) && SlotsOk(b', taken, true)
  {
    SameItems(b, b.(data := b.data[b.tail := Some(x)]));
  }

  lemma FullWhen<T>(b: Block<T>)
    requires BlockOk(b) && Inc(b.tail, b.size) == b.front
    ensures Full(b)
  {
  }

  /** The tail block's elements are among the queued ones. */
  lemma QueuedAtLeast<T>(q: Queue<T>, a: Ring, c: Config)
    requires Inv(q, a, c)
    ensures Queued(q) == |Linked(q.blocks, a)| >= Count(q.blocks[a.order[a.t]])
  {
    hide ProducerKnows, ConsumerKnows, Fill, Slots, Capacity, Returned;
    var before, after := UpdateLinked(q.blocks, a, a.t, q.blocks[a.order[a.t]]);
  }

  lemma UpdateFill<T>(bs: seq<Block<T>>, a: Ring, u: bool, p: nat, b: Block<T>)
    requires Shape(bs, a) && p < |a.order| && BlockOk(b) && b.next == bs[a.order[p]].next
    requires Fill(bs, a, u)
    requires (Count(b) == Count(bs[a.order[p]]) && b.size == bs[a.order[p]].size)
          || p == 0 || (p == a.t && Count(b) >= 1)
    ensures Shape(bs[a.order[p] := b], a) && Fill(bs[a.order[p] := b], a, u)
  {
    UpdateAt(bs, a, p, b);
  }

  lemma UpdateSlots<T>(bs: seq<Block<T>>, a: Ring, taken: bool, extra: int, p: nat, b: Block<T>,
                       taken': bool, extra': int)
    requires Shape(bs, a) && p < |a.order| && BlockOk(b) && b.next == bs[a.order[p]].next
    requires Slots(bs, a, taken, extra) && SlotsOk(b, p == 0 && taken', p == extra')
    requires p == 0 || taken == taken'
    requires extra == extra' || ((extra == -1 || extra == p) && (extra' == -1 || extra' == p))
    ensures Shape(bs[a.order[p] := b], a) && Slots(bs[a.order[p] := b], a, taken', extra')
  {
    UpdateAt(bs, a, p, b);
  }

  lemma UpdateFifo<T>(bs: seq<Block<T>>, a: Ring, taken: bool, sent: seq<T>, got: seq<T>, p: nat, b: Block<T>)
    requires Shape(bs, a) && p < |a.order| && BlockOk(b) && b.next == bs[a.order[p]].next
    requires Fifo(bs, a, taken, sent, got)
    requires Items(b) == Items(bs[a.order[p]]) || p > a.t
    ensures Shape(bs[a.order[p] := b], a) && Fifo(bs[a.order[p] := b], a, taken, sent, got)
  {
    hide Items;
    var before, after := UpdateLinked(bs, a, p, b);
  }

  /** The producer writes at ring position `p`: what the consumer knows stays. */
  lemma ConsumerFrame<T>(k: Consumer<T>, bs: seq<Block<T>>, a: Ring, sent: seq<T>, got: seq<T>, p: nat, b: Block<T>)
    requires Shape(bs, a) && p < |a.order| && BlockOk(b) && b.next == bs[a.order[p]].next
    requires ConsumerKnows(k, bs, a, sent, got)
    requires b.front == bs[a.order[p]].front && b.localTail == bs[a.order[p]].localTail
    requires Count(b) >= Count(bs[a.order[p]]) && (p >= 1 || a.t == 0)
    ensures Shape(bs[a.order[p] := b], a) && ConsumerKnows(k, bs[a.order[p] := b], a, sent, got)
  {
    UpdateAt(bs, a, p, b);
  }

  lemma UpdateCapacity<T>(bs: seq<Block<T>>, a: Ring, c: Config, largest: nat, p: nat, b: Block<T>)
    requires p < |bs| && Capacity(bs, a, c, largest) && b.size == bs[p].size
    ensures Capacity(bs[p := b], a, c, largest)
  {
  }

  // ------------------------------------------------------------------ the producer's steps

  lemma ProducerReads<T>(q: Queue<T>, a: Ring, c: Config, maxBlock: nat)
    requires Inv(q, a, c)
    requires q.prod.P552? || q.prod.P554? || q.prod.P572? || q.prod.P581?
    ensures Inv(ProdStep(q, maxBlock), a, c)
  {
    hide Fill, Slots, Fifo, ConsumerKnows, Capacity, Returned, Items, SlotsOk, BlockOk, Detached, Linked;
    assert LinkAt(q.blocks, a.order, a.t);
  }

  /** A store into the tail block or the block after it that publishes nothing. */
  lemma ProducerWrites<T>(q: Queue<T>, a: Ring, c: Config, p: nat, b: Block<T>, extra: int)
    requires Inv(q, a, c) && !q.prod.P601? && !q.prod.P631?
    requires p < |a.order| && (p == a.t || p == a.t + 1) && BlockOk(b)
    requires var was := q.blocks[a.order[p]];
      && b.next == was.next && b.size == was.size && b.front == was.front && b.tail == was.tail
      && b.localTail == was.localTail && (p == a.t ==> Items(b) == Items(was))
    requires SlotsOk(b, p == 0 && q.cons.C324?, p == extra)
    requires (ExtraAt(q.prod, a) == -1 || ExtraAt(q.prod, a) == p) && (extra == -1 || extra == p)
    ensures var bs := q.blocks[a.order[p] := b];
      && Shape(bs, a) && Fill(bs, a, false) && Slots(bs, a, q.cons.C324?, extra)
      && Fifo(bs, a, q.cons.C324?, q.sent, q.got) && ConsumerKnows(q.cons, bs, a, q.sent, q.got)
      && Capacity(bs, a, c, q.largest)
  {
    hide Fill, Slots, Fifo, ProducerKnows, ConsumerKnows, Capacity, Returned, Linked, Items, SlotsOk;
    UpdateFill(q.blocks, a, false, p, b);
    UpdateSlots(q.blocks, a, q.cons.C324?, ExtraAt(q.prod, a), p, b, q.cons.C324?, extra);
    UpdateFifo(q.blocks, a, q.cons.C324?, q.sent, q.got, p, b);
    ConsumerFrame(q.cons, q.blocks, a, q.sent, q.got, p, b);
    UpdateCapacity(q.blocks, a, c, q.largest, a.order[p], b);
  }

  lemma Keep557<T>(q: Queue<T>, a: Ring, c: Config, maxBlock: nat)
    requires Inv(q, a, c) && q.prod.P557?
    ensures Inv(ProdStep(q, maxBlock), a, c)
  {
    hide Fill, Slots, Fifo, ConsumerKnows, Capacity, Returned, Linked, Items, SlotsOk, LinkAt, BlockOk, Queued, Detached;
    var b := q.blocks[q.prod.tb];
    SlotsAt(q, a, c, a.t);
    ReloadFront(b);
    ProducerWrites(q, a, c, a.t, b.(localFront := b.front), -1);
    QueuedAtLeast(q, a, c);
    if q.prod.nt == b.front { FullWhen(b); }
  }

  lemma Keep564<T>(q: Queue<T>, a: Ring, c: Config, maxBlock: nat)
    requires Inv(q, a, c) && q.prod.P564?
    ensures Inv(ProdStep(q, maxBlock), a, c)
  {
    hide Fill, Slots, Fifo, ConsumerKnows, Capacity, Returned, Linked, Items, SlotsOk, LinkAt, BlockOk, Queued, Detached;
    var b := q.blocks[q.prod.tb];
    SlotsAt(q, a, c, a.t);
    FillSlot(b, a.t == 0 && q.cons.C324?, q.prod.x);
    ProducerWrites(q, a, c, a.t, b.(data := b.data[q.prod.bt := Some(q.prod.x)]), a.t);
  }

  lemma NextIsEmpty<T>(q: Queue<T>, a: Ring, c: Config)
    requires Inv(q, a, c) && (q.prod.P582? || q.prod.P583? || q.prod.P595? || q.prod.P598?)
    ensures a.t + 1 < |a.order| && q.prod.nb == a.order[a.t + 1]
    ensures Count(q.blocks[q.prod.nb]) == 0 && Items(q.blocks[q.prod.nb]) == []
  {
    hide Slots, Fifo, ConsumerKnows, Capacity, Returned, Linked;
  }

  lemma Keep582<T>(q: Queue<T>, a: Ring, c: Config, maxBlock: nat)
    requires Inv(q, a, c) && q.prod.P582?
    ensures Inv(ProdStep(q, maxBlock), a, c)
  {
    hide Fill, Slots, Fifo, ConsumerKnows, Capacity, Returned, Linked, Items, SlotsOk, LinkAt, BlockOk, Queued, Detached;
    var b := q.blocks[q.prod.nb];
    NextIsEmpty(q, a, c);
    SlotsAt(q, a, c, a.t + 1);
    ReloadFront(b);
    ProducerWrites(q, a, c, a.t + 1, b.(localFront := b.front), -1);
  }

  lemma EmptyMeets<T>(b: Block<T>)
    requires BlockOk(b) && Count(b) == 0
    ensures b.tail == b.front
  {
  }

  lemma Keep583<T>(q: Queue<T>, a: Ring, c: Config, maxBlock: nat)
    requires Inv(q, a, c) && q.prod.P583?
    ensures Inv(ProdStep(q, maxBlock), a, c)
  {
    hide Fill, Slots, Fifo, ConsumerKnows, Capacity, Returned, Linked, Items, SlotsOk, LinkAt, BlockOk, Queued, Detached;
    NextIsEmpty(q, a, c);
    EmptyMeets(q.blocks[q.prod.nb]);
    assert q.blocks[q.prod.nb := q.blocks[q.prod.nb].(localFront := q.prod.nbf)] == q.blocks;
  }

  lemma EmptyHasRoom<T>(b: Block<T>)
    requires BlockOk(b) && Count(b) == 0 && b.localFront == b.front
    ensures b.tail == b.front && Inc(b.tail, b.size) != b.localFront
  {
  }

  lemma Keep595<T>(q: Queue<T>, a: Ring, c: Config, maxBlock: nat)
    requires Inv(q, a, c) && q.prod.P595?
    ensures Inv(ProdStep(q, maxBlock), a, c)
  {
    hide Fill, Slots, Fifo, ConsumerKnows, Capacity, Returned, Linked, Items, SlotsOk, LinkAt, BlockOk, Queued, Detached;
    var b := q.blocks[q.prod.nb];
    NextIsEmpty(q, a, c);
    SlotsAt(q, a, c, a.t + 1);
    EmptyHasRoom(b);
    FillSlot(b, false, q.prod.x);
    ProducerWrites(q, a, c, a.t + 1, b.(data := b.data[q.prod.nbt := Some(q.prod.x)]), a.t + 1);
  }

  lemma PushSlots<T>(b: Block<T>, taken: bool)
    requires BlockOk(b) && SlotsOk(b, taken, true) && Inc(b.tail, b.size) != b.localFront
    requires taken ==> Count(b) >= 1
    ensures var b' := b.(tail := Inc(b.tail, b.size)); BlockOk(b') && SlotsOk(b', taken, false)
  {
    IncDist(b.tail, b.front, b.size);
  }

  lemma TakenCount<T>(q: Queue<T>, a: Ring, c: Config)
    requires Inv(q, a, c)
    ensures q.cons.C324? ==> Count(q.blocks[a.order[0]]) >= 1
  {
    hide Fill, Slots, Fifo, ProducerKnows, Capacity, Returned;
  }

  lemma EmptyItems<T>(b: Block<T>)
    requires BlockOk(b)
    ensures Items(b) == [] <==> Count(b) == 0
    ensures |Items(b)| == Count(b)
  {
  }

  lemma FifoPush<T>(bs: seq<Block<T>>, a: Ring, bs': seq<Block<T>>, a': Ring, taken: bool, sent: seq<T>, got: seq<T>, x: T)
    requires Shape(bs, a) && Shape(bs', a') && Fifo(bs, a, taken, sent, got)
    requires Linked(bs', a') == Linked(bs, a) + [Some(x)]
    ensures Fifo(bs', a', taken, sent + [x], got)
  {
    hide Linked, Shape;
    var sent' := sent + [x];
    assert Live(sent', |got|) == Live(sent, |got|) + [Some(x)];
    if taken {
      assert Live(sent', |got| + 1) == Live(sent, |got| + 1) + [Some(x)];
    }
  }

  /** A newly published element changes no earlier claim. */
  lemma SentGrows<T>(q: Queue<T>, a: Ring, c: Config, x: T)
    requires Inv(q, a, c)
    ensures ConsumerKnows(q.cons, q.blocks, a, q.sent + [x], q.got)
    ensures Returned(Accepted, q.consRet, q.cons.CIdle?, q.sent + [x], q.got, c)
  {
    hide ProducerKnows, Fill, Slots, Capacity, Linked, Items;
  }

  /** The store of line 568 on the blocks. */
  lemma Publish568<T>(q: Queue<T>, a: Ring, c: Config)
    requires Inv(q, a, c) && q.prod.P568?
    ensures var b := q.blocks[a.order[a.t]];
      var bs := q.blocks[a.order[a.t] := b.(tail := Inc(b.tail, b.size))];
      && Shape(bs, a) && Fill(bs, a, false) && Slots(bs, a, q.cons.C324?, -1)
      && Fifo(bs, a, q.cons.C324?, q.sent + [q.prod.x], q.got)
  {
    hide Fill, Slots, Fifo, ConsumerKnows, Capacity, Returned, Linked, Items, SlotsOk, LinkAt, BlockOk, Detached;
    var bs, b, x := q.blocks, q.blocks[q.prod.tb], q.prod.x;
    var b' := b.(tail := Inc(b.tail, b.size));
    SlotsAt(q, a, c, a.t);
    TakenCount(q, a, c);
    PushSlots(b, a.t == 0 && q.cons.C324?);
    PushItems(b, x);
    UpdateFill(bs, a, false, a.t, b');
    UpdateSlots(bs, a, q.cons.C324?, a.t, a.t, b', q.cons.C324?, -1);
    var before, after := UpdateLinked(bs, a, a.t, b');
    FifoPush(bs, a, bs[a.order[a.t] := b'], a, q.cons.C324?, q.sent, q.got, x);
  }

  lemma Keep568<T>(q: Queue<T>, a: Ring, c: Config, maxBlock: nat)
    requires Inv(q, a, c) && q.prod.P568?
    ensures Inv(ProdStep(q, maxBlock), a, c)
  {
    hide Fill, Slots, Fifo, ConsumerKnows, Capacity, Returned, Linked, Items, SlotsOk;
    var b := q.blocks[q.prod.tb];
    var b' := b.(tail := q.prod.nt);
    Publish568(q, a, c);
    PushItems(b, q.prod.x);
    SentGrows(q, a, c, q.prod.x);
    ConsumerFrame(q.cons, q.blocks, a, q.sent + [q.prod.x], q.got, a.t, b');
    UpdateCapacity(q.blocks, a, c, q.largest, a.order[a.t], b');
  }

  lemma FillNext<T>(bs: seq<Block<T>>, a: Ring, b: Block<T>)
    requires Shape(bs, a) && Fill(bs, a, false) && a.t + 1 < |a.order| && Count(b) == 1
    requires BlockOk(b) && b.next == bs[a.order[a.t + 1]].next
    ensures Shape(bs[a.order[a.t + 1] := b], a) && Fill(bs[a.order[a.t + 1] := b], a, true)
  {
    hide Items, SlotsOk, LinkAt, BlockOk;
    UpdateAt(bs, a, a.t + 1, b);
  }

  lemma Keep598<T>(q: Queue<T>, a: Ring, c: Config, maxBlock: nat)
    requires Inv(q, a, c) && q.prod.P598?
    ensures Inv(ProdStep(q, maxBlock), a, c)
  {
    hide Fill, Slots, Fifo, ConsumerKnows, Capacity, Returned, Linked, Items, SlotsOk, LinkAt, BlockOk, Detached;
    var bs, b := q.blocks, q.blocks[q.prod.nb];
    var b' := b.(tail := Inc(b.tail, b.size));
    NextIsEmpty(q, a, c);
    SlotsAt(q, a, c, a.t + 1);
    EmptyHasRoom(b);
    PushSlots(b, false);
    PushItems(b, q.prod.x);
    FillNext(bs, a, b');
    UpdateSlots(bs, a, q.cons.C324?, a.t + 1, a.t + 1, b', q.cons.C324?, -1);
    UpdateFifo(bs, a, q.cons.C324?, q.sent, q.got, a.t + 1, b');
    ConsumerFrame(q.cons, bs, a, q.sent, q.got, a.t + 1, b');
    UpdateCapacity(bs, a, c, q.largest, a.order[a.t + 1], b');
  }

  lemma PublishFifo<T>(bs: seq<Block<T>>, a: Ring, taken: bool, sent: seq<T>, got: seq<T>, x: T)
    requires Shape(bs, a) && a.t + 1 < |a.order| && Shape(bs, a.(t := a.t + 1))
    requires Fifo(bs, a, taken, sent, got) && Items(bs[a.order[a.t + 1]]) == [Some(x)]
    ensures Fifo(bs, a.(t := a.t + 1), taken, sent + [x], got)
  {
    hide Fifo, Items, BlockOk;
    var a' := a.(t := a.t + 1);
    var ls := Lists(bs, a.order[..a.t + 1]);
    var last := [Items(bs[a.order[a.t + 1]])];
    assert Lists(bs, a'.order[..a'.t + 1]) == ls + last;
    FlattenSplit(ls, last);
    assert Flatten(last) == Items(bs[a.order[a.t + 1]]) + Flatten(last[1..]);
    FifoPush(bs, a, bs, a', taken, sent, got, x);
  }

  /** Lines 601 and 631: the block after the tail becomes the tail. */
  lemma Publish<T>(bs: seq<Block<T>>, a: Ring, taken: bool, sent: seq<T>, got: seq<T>, x: T)
    requires Shape(bs, a) && a.t + 1 < |a.order| && Fill(bs, a, true) && Slots(bs, a, taken, -1)
    requires Fifo(bs, a, taken, sent, got) && Items(bs[a.order[a.t + 1]]) == [Some(x)]
    requires a.t >= 1 ==> Full(bs[a.order[a.t]])
    ensures var a' := a.(t := a.t + 1);
      && Shape(bs, a') && Fill(bs, a', false) && Slots(bs, a', taken, -1)
      && Fifo(bs, a', taken, sent + [x], got)
  {
    hide Fifo, SlotsOk, Items;
    assert Shape(bs, a.(t := a.t + 1));
    PublishFifo(bs, a, taken, sent, got, x);
  }

  lemma TailMoves<T>(q: Queue<T>, a: Ring, c: Config, sent: seq<T>)
    requires Inv(q, a, c) && a.t + 1 < |a.order| && ConsumerKnows(q.cons, q.blocks, a, sent, q.got)
    ensures Shape(q.blocks, a.(t := a.t + 1))
    ensures ConsumerKnows(q.cons, q.blocks, a.(t := a.t + 1), sent, q.got)
  {
    hide Fill, Slots, Fifo, ProducerKnows, Capacity, Returned, Linked, Items;
  }

  lemma Keep601<T>(q: Queue<T>, a: Ring, c: Config, maxBlock: nat)
    requires Inv(q, a, c) && (q.prod.P601? || q.prod.P631?)
    ensures Inv(ProdStep(q, maxBlock), a.(t := a.t + 1), c)
  {
    hide Fill, Slots, Fifo, ConsumerKnows, Capacity, Returned, Linked, Items, SlotsOk, LinkAt, BlockOk, Detached, Shape;
    Publish(q.blocks, a, q.cons.C324?, q.sent, q.got, q.prod.x);
    SentGrows(q, a, c, q.prod.x);
    TailMoves(q, a, c, q.sent + [q.prod.x]);
    assert Capacity(q.blocks, a.(t := a.t + 1), c, q.largest) by { CapacityTail(q.blocks, a, c, q.largest); }
  }

  lemma CapacityTail<T>(bs: seq<Block<T>>, a: Ring, c: Config, largest: nat)
    requires Capacity(bs, a, c, largest)
    ensures Capacity(bs, a.(t := a.t + 1), c, largest)
  {
  }

  // ------------------------------------------------------------------ refusal and allocation

  /** With no block between tail and front, all blocks but the front one are full. */
  lemma AllFull<T>(bs: seq<Block<T>>, a: Ring, c: Config, largest: nat)
    requires Shape(bs, a) && Fill(bs, a, false) && Capacity(bs, a, c, largest)
    requires 2 <= |a.order| == a.t + 1 && Full(bs[a.order[a.t]])
    ensures |Linked(bs, a)| >= c.request
  {
    hide Items, SlotsOk, LinkAt;
    var ls := Lists(bs, a.order[..a.t + 1]);
    forall i | 0 <= i < |ls[1..]| ensures |ls[1..][i]| >= c.size - 1 {
      EmptyItems(bs[a.order[i + 1]]);
    }
    FlattenLength(ls[1..], c.size - 1);
    TimesMonotone(c.count - 1, a.t, c.size - 1);
    TimesMonotone(1, a.t, c.size - 1);
  }

  lemma TimesMonotone(x: nat, y: nat, m: nat)
    requires x <= y
    ensures x * m <= y * m
  {
    assert y * m == x * m + (y - x) * m;
  }

  /** Line 572 finding no block between tail and front means the requested elements were queued when line
      557 found the tail block full, or are now. */
  lemma NoBlockAhead<T>(q: Queue<T>, a: Ring, c: Config)
    requires Inv(q, a, c) && q.prod.P572b? && q.prod.nx == q.frontBlock
    ensures c.request <= q.prod.seen || c.request <= Queued(q)
  {
    hide Fill, Slots, Fifo, ConsumerKnows, Linked, Items, SlotsOk, LinkAt, BlockOk, Returned;
    QueuedAtLeast(q, a, c);
    if |a.order| >= 2 {
      AllFull(q.blocks, a, c, q.largest);
    }
  }

  lemma Keep572b<T>(q: Queue<T>, a: Ring, c: Config, maxBlock: nat)
    requires Inv(q, a, c) && q.prod.P572b?
    ensures Inv(ProdStep(q, maxBlock), a, c)
  {
    hide Fill, Slots, Fifo, ConsumerKnows, Linked, Items, SlotsOk, LinkAt, BlockOk, Capacity, Queued, Detached;
    if q.prod.nx == q.frontBlock { NoBlockAhead(q, a, c); }
  }

  lemma OutsideFill<T>(bs: seq<Block<T>>, a: Ring, bs': seq<Block<T>>, u: bool, taken: bool, extra: int)
    requires Shape(bs, a) && Shape(bs', a) && Fill(bs, a, u) && Slots(bs, a, taken, extra)
    requires forall i :: 0 <= i < |a.order| ==> bs'[a.order[i]] == bs[a.order[i]]
    ensures Fill(bs', a, u) && Slots(bs', a, taken, extra)
  {
    hide LinkAt, BlockOk, SlotsOk;
  }

  /** A block appended to the heap, or one outside the ring, changes no claim about the ring. */
  lemma OutsideRing<T>(q: Queue<T>, a: Ring, c: Config, bs: seq<Block<T>>)
    requires Inv(q, a, c) && |bs| >= |q.blocks| && ExtraAt(q.prod, a) == -1
    requires !q.prod.P601? && !q.prod.P631?
    requires forall i :: 0 <= i < |a.order| ==> bs[a.order[i]] == q.blocks[a.order[i]]
    ensures Shape(bs, a) && Fill(bs, a, false) && Slots(bs, a, q.cons.C324?, -1)
    ensures Fifo(bs, a, q.cons.C324?, q.sent, q.got) && ConsumerKnows(q.cons, bs, a, q.sent, q.got)
  {
    hide Fill, Slots, Fifo, ProducerKnows, ConsumerKnows, Capacity, Returned, Linked, Items, SlotsOk, LinkAt, BlockOk;
    OutsideShape(q.blocks, a, bs);
    OutsideFill(q.blocks, a, bs, false, q.cons.C324?, -1);
    OutsideFifo(q, a, c, bs);
    OutsideConsumer(q, a, c, bs);
  }

  lemma OutsideShape<T>(bs: seq<Block<T>>, a: Ring, bs': seq<Block<T>>)
    requires Shape(bs, a) && |bs'| >= |bs|
    requires forall i :: 0 <= i < |a.order| ==> bs'[a.order[i]] == bs[a.order[i]]
    ensures Shape(bs', a)
  {
    forall i | 0 <= i < |a.order| ensures LinkAt(bs', a.order, i) {
      assert LinkAt(bs, a.order, i);
    }
  }

  lemma OutsideFifo<T>(q: Queue<T>, a: Ring, c: Config, bs: seq<Block<T>>)
    requires Inv(q, a, c) && Shape(bs, a)
    requires forall i :: 0 <= i < |a.order| ==> bs[a.order[i]] == q.blocks[a.order[i]]
    ensures Fifo(bs, a, q.cons.C324?, q.sent, q.got)
  {
    hide Fill, Slots, ProducerKnows, ConsumerKnows, Capacity, Returned, Items, SlotsOk, LinkAt, BlockOk, Live;
    assert Lists(bs, a.order[..a.t + 1]) == Lists(q.blocks, a.order[..a.t + 1]);
  }

  lemma OutsideConsumer<T>(q: Queue<T>, a: Ring, c: Config, bs: seq<Block<T>>)
    requires Inv(q, a, c) && Shape(bs, a)
    requires forall i :: 0 <= i < |a.order| ==> bs[a.order[i]] == q.blocks[a.order[i]]
    ensures ConsumerKnows(q.cons, bs, a, q.sent, q.got)
  {
    hide Fill, Slots, Fifo, ProducerKnows, Capacity, Returned, Linked, Items, SlotsOk;
  }

  /** The block constructed by lines 606-619. */
  function Allocated<T>(size: nat, x: T): Block<T>
    requires 2 <= size
  {
    NewBlock(size, 0).(data := NewBlock<T>(size, 0).data[0 := Some(x)], tail := 1, localTail := 1)
  }

  lemma AllocatedOk<T>(size: nat, x: T)
    requires 2 <= size
    ensures var b := Allocated(size, x);
      BlockOk(b) && SlotsOk(b, false, false) && Count(b) == 1 && Items(b) == [Some(x)]
  {
  }

  lemma Keep606<T>(q: Queue<T>, a: Ring, c: Config, maxBlock: nat)
    requires Inv(q, a, c) && q.prod.P606?
    ensures Inv(ProdStep(q, maxBlock), a, c)
  {
    hide Fill, Slots, Fifo, ConsumerKnows, Returned, Linked, Items, SlotsOk, BlockOk;
    var size := if q.largest >= maxBlock then q.largest else q.largest * 2;
    AllocatedOk(size, q.prod.x);
    OutsideRing(q, a, c, q.blocks + [Allocated(size, q.prod.x)]);
  }

  lemma Relink<T>(b: Block<T>, next: nat)
    requires BlockOk(b)
    ensures var b' := b.(next := next);
      BlockOk(b') && Items(b') == Items(b) && forall taken, extra :: SlotsOk(b, taken, extra) ==> SlotsOk(b', taken, extra)
  {
    SameItems(b, b.(next := next));
  }

  lemma Keep621<T>(q: Queue<T>, a: Ring, c: Config, maxBlock: nat)
    requires Inv(q, a, c) && q.prod.P621?
    ensures Inv(ProdStep(q, maxBlock), a, c)
  {
    hide Fill, Slots, Fifo, ConsumerKnows, Returned, Linked, BlockOk, SlotsOk, Items;
    var b := q.blocks[q.prod.nb];
    Relink(b, q.blocks[q.prod.tb].next);
    OutsideRing(q, a, c, q.blocks[q.prod.nb := b.(next := q.blocks[q.prod.tb].next)]);
  }

  /** Line 622 puts the new block after the tail. */
  function Inserted(a: Ring, nb: nat): Ring
    requires a.t < |a.order|
  {
    Ring(a.order[..a.t + 1] + [nb] + a.order[a.t + 1..], a.t)
  }

  /** The blocks of the extended ring by position. */
  lemma InsertBlocks<T>(bs: seq<Block<T>>, a: Ring, x: T, nb: nat)
    requires Shape(bs, a) && Detached(bs, a, x, nb)
    ensures var bs' := bs[a.order[a.t] := bs[a.order[a.t]].(next := nb)];
      var a' := Inserted(a, nb);
      && (forall i :: 0 <= i < |a'.order| && i != a.t ==>
            a'.order[i] < |bs| && bs'[a'.order[i]] == if i < a.t then bs[a.order[i]] else if i == a.t + 1 then bs[nb] else bs[a.order[i - 1]])
      && bs'[a'.order[a.t]] == bs[a.order[a.t]].(next := nb)
      && (forall i :: 0 <= i < |a'.order| ==> a'.order[i] < |bs'|)
      && (forall i :: 0 <= i < |a'.order| ==> BlockOk(bs'[a'.order[i]]))
  {
    hide Items, SlotsOk, LinkAt, BlockOk;
    Relink(bs[a.order[a.t]], nb);
  }

  lemma InsertLink<T>(bs: seq<Block<T>>, a: Ring, x: T, nb: nat, i: nat)
    requires Shape(bs, a) && Detached(bs, a, x, nb) && bs[nb].next == bs[a.order[a.t]].next
    requires i <= |a.order|
    ensures var bs' := bs[a.order[a.t] := bs[a.order[a.t]].(next := nb)];
      Inserted(a, nb).order[i] < |bs'| && LinkAt(bs', Inserted(a, nb).order, i)
  {
    hide BlockOk, Items, SlotsOk;
    assert LinkAt(bs, a.order, if i <= a.t then i else i - 1);
  }

  lemma InsertDistinct<T>(bs: seq<Block<T>>, a: Ring, x: T, nb: nat)
    requires Shape(bs, a) && Detached(bs, a, x, nb)
    ensures var o := Inserted(a, nb).order; |o| == |a.order| + 1 && forall i, j :: 0 <= i < j < |o| ==> o[i] != o[j]
  {
    hide BlockOk, Items, SlotsOk, LinkAt;
  }

  lemma InsertShape<T>(bs: seq<Block<T>>, a: Ring, x: T, nb: nat)
    requires Shape(bs, a) && Detached(bs, a, x, nb) && bs[nb].next == bs[a.order[a.t]].next
    ensures Shape(bs[a.order[a.t] := bs[a.order[a.t]].(next := nb)], Inserted(a, nb))
  {
    hide BlockOk, Items, SlotsOk, LinkAt;
    var bs' := bs[a.order[a.t] := bs[a.order[a.t]].(next := nb)];
    var a' := Inserted(a, nb);
    InsertBlocks(bs, a, x, nb);
    InsertDistinct(bs, a, x, nb);
    hide Inserted;
    forall i | 0 <= i < |a'.order|
      ensures LinkAt(bs', a'.order, i)
    {
      InsertLink(bs, a, x, nb, i);
    }
  }

  /** `bs'` along `a'` is `bs` along `a` with `added` put in behind position `a.t`. */
  ghost predicate InsertedAt<T>(bs: seq<Block<T>>, a: Ring, bs': seq<Block<T>>, a': Ring, added: Block<T>)
    requires Shape(bs, a) && Shape(bs', a')
  {
    && a'.t == a.t && |a'.order| == |a.order| + 1
    && bs'[a'.order[a.t + 1]] == added
    && (forall i :: 0 <= i < a.t ==> bs'[a'.order[i]] == bs[a.order[i]])
    && (forall i :: a.t + 1 < i < |a'.order| ==> bs'[a'.order[i]] == bs[a.order[i - 1]])
  }

  lemma FillAfterInsert<T>(bs: seq<Block<T>>, a: Ring, bs': seq<Block<T>>, a': Ring, added: Block<T>)
    requires Shape(bs, a) && Shape(bs', a') && Fill(bs, a, false) && InsertedAt(bs, a, bs', a', added)
    requires Count(added) == 1 && Count(bs'[a'.order[a.t]]) == Count(bs[a.order[a.t]])
    ensures Fill(bs', a', true)
  {
    hide LinkAt, BlockOk, Count;
    assert forall i :: 1 <= i < a.t ==> Full(bs'[a'.order[i]]) by {
      forall i | 1 <= i < a.t ensures Full(bs'[a'.order[i]]) { assert Full(bs[a.order[i]]); }
    }
  }

  lemma SlotsAfterInsert<T>(bs: seq<Block<T>>, a: Ring, bs': seq<Block<T>>, a': Ring, added: Block<T>, taken: bool)
    requires Shape(bs, a) && Shape(bs', a') && Slots(bs, a, taken, -1) && InsertedAt(bs, a, bs', a', added)
    requires BlockOk(added) && SlotsOk(added, false, false) && SlotsOk(bs'[a'.order[a.t]], a.t == 0 && taken, false)
    ensures Slots(bs', a', taken, -1)
  {
    hide LinkAt, BlockOk, SlotsOk;
    forall i | 0 <= i < |a'.order| ensures SlotsOk(bs'[a'.order[i]], i == 0 && taken, false) {
      if i < a.t { assert SlotsOk(bs[a.order[i]], i == 0 && taken, false); }
      if i > a.t + 1 { assert SlotsOk(bs[a.order[i - 1]], false, false); }
    }
  }

  lemma InsertFill<T>(bs: seq<Block<T>>, a: Ring, x: T, nb: nat, taken: bool)
    requires Shape(bs, a) && Fill(bs, a, false) && Detached(bs, a, x, nb)
    requires bs[nb].next == bs[a.order[a.t]].next && Slots(bs, a, taken, -1)
    ensures var bs' := bs[a.order[a.t] := bs[a.order[a.t]].(next := nb)];
      Shape(bs', Inserted(a, nb)) && Fill(bs', Inserted(a, nb), true) && Slots(bs', Inserted(a, nb), taken, -1)
  {
    hide Items, SlotsOk, LinkAt, BlockOk, Fill;
    var bs' := bs[a.order[a.t] := bs[a.order[a.t]].(next := nb)];
    InsertShape(bs, a, x, nb);
    InsertBlocks(bs, a, x, nb);
    Relink(bs[a.order[a.t]], nb);
    InsertedPrefix(a, nb);
    assert SlotsOk(bs[a.order[a.t]], a.t == 0 && taken, false);
    hide Shape, Inserted, Slots;
    FillAfterInsert(bs, a, bs', Inserted(a, nb), bs[nb]);
    SlotsAfterInsert(bs, a, bs', Inserted(a, nb), bs[nb], taken);
  }

  lemma InsertedPrefix(a: Ring, nb: nat)
    requires a.t < |a.order|
    ensures Inserted(a, nb).t == a.t && Inserted(a, nb).order[..a.t + 1] == a.order[..a.t + 1]
    ensures |Inserted(a, nb).order| == |a.order| + 1
  {
  }

  lemma SameLists<T>(bs: seq<Block<T>>, bs': seq<Block<T>>, ids: seq<nat>)
    requires forall i :: 0 <= i < |ids| ==> ids[i] < |bs| && ids[i] < |bs'| && Items(bs'[ids[i]]) == Items(bs[ids[i]])
    ensures Lists(bs', ids) == Lists(bs, ids)
  {
    hide Items;
  }

  lemma InsertLinked<T>(bs: seq<Block<T>>, a: Ring, x: T, nb: nat)
    requires Shape(bs, a) && Detached(bs, a, x, nb) && bs[nb].next == bs[a.order[a.t]].next
    ensures var bs' := bs[a.order[a.t] := bs[a.order[a.t]].(next := nb)];
      Shape(bs', Inserted(a, nb)) && Linked(bs', Inserted(a, nb)) == Linked(bs, a)
  {
    hide Items, SlotsOk, LinkAt, BlockOk;
    InsertShape(bs, a, x, nb);
    Relink(bs[a.order[a.t]], nb);
    InsertedPrefix(a, nb);
    hide Inserted, Lists;
    SameLists(bs, bs[a.order[a.t] := bs[a.order[a.t]].(next := nb)], a.order[..a.t + 1]);
  }

  lemma InsertFifo<T>(bs: seq<Block<T>>, a: Ring, x: T, nb: nat, taken: bool, sent: seq<T>, got: seq<T>)
    requires Shape(bs, a) && Detached(bs, a, x, nb) && Fifo(bs, a, taken, sent, got)
    requires bs[nb].next == bs[a.order[a.t]].next
    ensures var bs' := bs[a.order[a.t] := bs[a.order[a.t]].(next := nb)];
      Shape(bs', Inserted(a, nb)) && Fifo(bs', Inserted(a, nb), taken, sent, got)
  {
    hide Shape, Linked, Lists, Items, SlotsOk, LinkAt, BlockOk, Detached, Live, Inserted;
    InsertLinked(bs, a, x, nb);
  }

  lemma InsertConsumer<T>(bs: seq<Block<T>>, a: Ring, x: T, nb: nat, k: Consumer<T>, sent: seq<T>, got: seq<T>)
    requires Shape(bs, a) && Detached(bs, a, x, nb) && ConsumerKnows(k, bs, a, sent, got)
    requires bs[nb].next == bs[a.order[a.t]].next
    ensures var bs' := bs[a.order[a.t] := bs[a.order[a.t]].(next := nb)];
      Shape(bs', Inserted(a, nb)) && ConsumerKnows(k, bs', Inserted(a, nb), sent, got)
  {
    hide Items, SlotsOk, LinkAt, BlockOk;
    InsertShape(bs, a, x, nb);
    InsertBlocks(bs, a, x, nb);
    hide Shape;
  }

  lemma InsertProducer<T>(bs: seq<Block<T>>, a: Ring, x: T, nb: nat)
    requires Shape(bs, a) && Detached(bs, a, x, nb) && (a.t >= 1 ==> Full(bs[a.order[a.t]]))
    requires bs[nb].next == bs[a.order[a.t]].next
    ensures var bs' := bs[a.order[a.t] := bs[a.order[a.t]].(next := nb)];
      && Shape(bs', Inserted(a, nb)) && ProducerKnows(P631(x, nb), bs', Inserted(a, nb))
      && bs'[nb] == bs[nb]
  {
    hide Items, SlotsOk, LinkAt, BlockOk;
    InsertShape(bs, a, x, nb);
    InsertBlocks(bs, a, x, nb);
    hide Shape;
  }

  lemma Keep622<T>(q: Queue<T>, a: Ring, c: Config, maxBlock: nat)
    requires Inv(q, a, c) && q.prod.P622?
    ensures Inv(ProdStep(q, maxBlock), Inserted(a, q.prod.nb), c)
  {
    hide Fill, Slots, Fifo, ConsumerKnows, Returned, Linked, BlockOk, SlotsOk, Items, LinkAt;
    var x, nb := q.prod.x, q.prod.nb;
    InsertFill(q.blocks, a, x, nb, q.cons.C324?);
    InsertFifo(q.blocks, a, x, nb, q.cons.C324?, q.sent, q.got);
    InsertConsumer(q.blocks, a, x, nb, q.cons, q.sent, q.got);
    InsertProducer(q.blocks, a, x, nb);
  }

  // ------------------------------------------------------------------ the consumer's steps

  lemma FlattenHead<S>(ss: seq<seq<S>>, p: nat)
    requires p < |ss| && p <= 1 && |ss[p]| >= 1 && (p == 1 ==> ss[0] == [])
    ensures |Flatten(ss)| >= 1 && Flatten(ss)[0] == ss[p][0]
  {
    assert Flatten(ss) == ss[0] + Flatten(ss[1..]);
    if p == 1 {
      assert Flatten(ss[1..]) == ss[1] + Flatten(ss[1..][1..]);
    }
  }

  lemma NextHasItems<T>(bs: seq<Block<T>>, a: Ring, u: bool)
    requires Shape(bs, a) && Fill(bs, a, u) && 1 <= a.t
    ensures Count(bs[a.order[1]]) >= 1
  {
    hide LinkAt, SlotsOk, Items;
    assert 1 < a.t ==> Full(bs[a.order[1]]);
  }

  lemma FirstItem<T>(b: Block<T>)
    requires BlockOk(b) && Count(b) >= 1
    ensures |Items(b)| == Count(b) && b.front < |b.data| && Items(b)[0] == b.data[b.front]
  {
  }

  /** The first queued element is the first item of the first block that has one. */
  lemma HeadItem<T>(bs: seq<Block<T>>, a: Ring, u: bool, p: nat)
    requires Shape(bs, a) && Fill(bs, a, u)
    requires (p == 0 && Count(bs[a.order[0]]) >= 1) || (p == 1 <= a.t && Count(bs[a.order[0]]) == 0)
    ensures var b := bs[a.order[p]];
      Count(b) >= 1 && |Linked(bs, a)| >= 1 && b.front < |b.data| && Linked(bs, a)[0] == b.data[b.front]
  {
    hide LinkAt, Fill, BlockOk, SlotsOk, Items, Lists;
    if p == 1 {
      NextHasItems(bs, a, u);
    }
    EmptyItems(bs[a.order[0]]);
    FirstItem(bs[a.order[p]]);
    ListsAt(bs, a, 0);
    ListsAt(bs, a, p);
    FlattenHead(Lists(bs, a.order[..a.t + 1]), p);
  }

  lemma ListsAt<T>(bs: seq<Block<T>>, a: Ring, p: nat)
    requires Shape(bs, a) && p <= a.t
    ensures Lists(bs, a.order[..a.t + 1])[p] == Items(bs[a.order[p]])
  {
    hide Items, BlockOk, LinkAt;
  }

  /** The front element of block `i` is the oldest undelivered one. */
  ghost predicate HoldsHead<T>(q: Queue<T>, i: nat) {
    && i < |q.blocks| && q.blocks[i].front < |q.blocks[i].data|
    && |q.got| < |q.sent| && q.blocks[i].data[q.blocks[i].front] == Some(q.sent[|q.got|])
  }

  /** Whatever the consumer is about to read is the oldest undelivered element. */
  lemma ReadsHead<T>(q: Queue<T>, a: Ring, c: Config)
    requires Inv(q, a, c) && (q.cons.C317? || q.cons.C417?)
    ensures HoldsHead(q, if q.cons.C317? then q.cons.fb else q.cons.nb)
  {
    hide Slots, ProducerKnows, Capacity, Returned, Linked, Fill, Items, LinkAt, BlockOk, SlotsOk;
    HeadItem(q.blocks, a, q.prod.P601? || q.prod.P631?, if q.cons.C317? then 0 else 1);
    assert |Live(q.sent, |q.got|)| >= 1;
    assert Live(q.sent, |q.got|)[0] == Some(q.sent[|q.got|]);
  }

  /** What the consumer concludes from the front block's indices. */
  lemma FrontCount<T>(b: Block<T>)
    requires BlockOk(b)
    ensures b.front != b.localTail ==> Count(b) >= 1
    ensures if b.tail == b.front then Count(b) == 0 else Count(b) >= 1
  {
  }

  lemma ConsumerReads<T>(q: Queue<T>, a: Ring, c: Config)
    requires Inv(q, a, c)
    requires q.cons.C308? || q.cons.C310? || q.cons.C326? || q.cons.C329? || q.cons.C331? || q.cons.C340? || q.cons.C345?
    ensures Inv(ConsStep(q), a, c)
  {
    hide Fill, Slots, Fifo, ProducerKnows, Capacity, Linked, Items, SlotsOk, BlockOk, Queued;
    assert LinkAt(q.blocks, a.order, 0);
    FrontCount(q.blocks[a.order[0]]);
  }

  lemma KeepPeek<T>(q: Queue<T>, a: Ring, c: Config)
    requires Inv(q, a, c) && ((q.cons.C317? && q.cons.op == Peek) || q.cons.C417?)
    ensures Inv(ConsStep(q), a, c)
  {
    hide Fill, Slots, Fifo, ProducerKnows, Capacity, Linked, Items, SlotsOk, LinkAt, BlockOk, Queued;
    ReadsHead(q, a, c);
  }

  lemma RingDistinct<T>(bs: seq<Block<T>>, a: Ring)
    requires Shape(bs, a)
    ensures forall i, j :: 0 <= i < j < |a.order| ==> a.order[i] != a.order[j]
    ensures forall i :: 0 <= i < |a.order| ==> a.order[i] < |bs|
    ensures a.t < |a.order|
  {
  }

  lemma DetachedStays<T>(bs: seq<Block<T>>, a: Ring, x: T, nb: nat, p: nat, b: Block<T>)
    requires Detached(bs, a, x, nb) && p < |a.order| && a.order[p] < |bs|
    ensures Detached(bs[a.order[p] := b], a, x, nb)
  {
    hide Items, SlotsOk, BlockOk;
    assert a.order[p] in a.order;
  }

  /** The consumer writes at ring position `p`: what the producer knows stays. */
  lemma ProducerFrame<T>(k: Producer<T>, bs: seq<Block<T>>, a: Ring, p: nat, b: Block<T>)
    requires Shape(bs, a) && p < |a.order| && BlockOk(b) && b.next == bs[a.order[p]].next
    requires ProducerKnows(k, bs, a)
    requires var was := bs[a.order[p]];
      && b.size == was.size && b.tail == was.tail && b.localFront == was.localFront
      && b.data[b.tail] == was.data[b.tail]
      && (p == 0 || (p == 1 <= a.t && Count(b) == Count(was)))
    ensures Shape(bs[a.order[p] := b], a) && ProducerKnows(k, bs[a.order[p] := b], a)
  {
    hide Items, SlotsOk, LinkAt, BlockOk, Shape;
    UpdateAt(bs, a, p, b);
    RingDistinct(bs, a);
    if k.P621? || k.P622? { DetachedStays(bs, a, k.x, k.nb, p, b); }
    hide Detached;
  }

  /** A store of the consumer's that leaves the delivered elements to be accounted for. */
  lemma ConsumerWrites<T>(q: Queue<T>, a: Ring, c: Config, p: nat, b: Block<T>, taken: bool)
    requires Inv(q, a, c) && p < |a.order| && BlockOk(b)
    requires var was := q.blocks[a.order[p]];
      && b.next == was.next && b.size == was.size && b.tail == was.tail && b.localFront == was.localFront
      && b.data[b.tail] == was.data[b.tail]
      && (p == 0 || (p == 1 <= a.t && Count(b) == Count(was) && taken == q.cons.C324?))
    requires SlotsOk(b, p == 0 && taken, p == ExtraAt(q.prod, a))
    ensures var bs := q.blocks[a.order[p] := b];
      && Shape(bs, a) && Fill(bs, a, q.prod.P601? || q.prod.P631?) && Slots(bs, a, taken, ExtraAt(q.prod, a))
      && ProducerKnows(q.prod, bs, a) && Capacity(bs, a, c, q.largest)
  {
    hide Fill, Slots, Fifo, ProducerKnows, ConsumerKnows, Capacity, Returned, Linked, Items, SlotsOk;
    UpdateFill(q.blocks, a, q.prod.P601? || q.prod.P631?, p, b);
    UpdateSlots(q.blocks, a, q.cons.C324?, ExtraAt(q.prod, a), p, b, taken, ExtraAt(q.prod, a));
    ProducerFrame(q.prod, q.blocks, a, p, b);
    UpdateCapacity(q.blocks, a, c, q.largest, a.order[p], b);
  }

  lemma EmptyOrNot<T>(b: Block<T>)
    requires BlockOk(b)
    ensures if b.tail == b.front then Count(b) == 0 else Count(b) >= 1
  {
  }

  lemma Keep312<T>(q: Queue<T>, a: Ring, c: Config)
    requires Inv(q, a, c) && (q.cons.C312? || q.cons.C330?)
    ensures Inv(ConsStep(q), a, c)
  {
    hide Fill, Slots, Fifo, ProducerKnows, Capacity, Linked, Items, SlotsOk, LinkAt, BlockOk, Queued;
    var b := q.blocks[a.order[0]];
    SlotsAt(q, a, c, 0);
    ReloadTail(b);
    ConsumerWrites(q, a, c, 0, b.(localTail := b.tail), false);
    UpdateFifo(q.blocks, a, false, q.sent, q.got, 0, b.(localTail := b.tail));
    EmptyOrNot(b);
    OneBlock(q, a, c);
  }

  lemma OneBlock<T>(q: Queue<T>, a: Ring, c: Config)
    requires Inv(q, a, c)
    ensures a.t == 0 && Count(q.blocks[a.order[0]]) == 0 ==> Queued(q) == 0
  {
    hide ProducerKnows, ConsumerKnows, Fill, Slots, Capacity, Returned, Items, LinkAt, BlockOk, SlotsOk, Lists;
    EmptyItems(q.blocks[a.order[0]]);
    QueuedAtLeast(q, a, c);
    if a.t == 0 {
      ListsAt(q.blocks, a, 0);
      FlattenOne(Lists(q.blocks, a.order[..a.t + 1]));
    }
  }

  lemma FlattenOne<T>(ss: seq<seq<T>>)
    requires |ss| == 1
    ensures Flatten(ss) == ss[0]
  {
  }

  lemma Keep346<T>(q: Queue<T>, a: Ring, c: Config)
    requires Inv(q, a, c) && q.cons.C346?
    ensures Inv(ConsStep(q), a, c)
  {
    hide Fill, Slots, Fifo, ProducerKnows, Capacity, Linked, Items, SlotsOk, LinkAt, BlockOk, Queued;
    var b := q.blocks[a.order[1]];
    NextHasItems(q.blocks, a, q.prod.P601? || q.prod.P631?);
    EmptyOrNot(b);
    if q.cons.op != Peek {
      SlotsAt(q, a, c, 1);
      ReloadTail(b);
      ConsumerWrites(q, a, c, 1, b.(localTail := b.tail), false);
      UpdateFifo(q.blocks, a, false, q.sent, q.got, 1, b.(localTail := b.tail));
    }
  }

  lemma TakeItems<T>(b: Block<T>)
    requires BlockOk(b) && Count(b) >= 1
    ensures Items(b.(data := b.data[b.front := None])) == [None] + Items(b)[1..]
  {
    var b' := b.(data := b.data[b.front := None]);
    ItemsAt(b);
    ItemsAt(b');
    hide Items, BlockOk;
    AheadOfFront(b.front, b.size);
    hide Ahead, Dist;
    forall k | 0 <= k < Count(b) ensures Items(b')[k] == ([None] + Items(b)[1..])[k] {
      if k > 0 { assert Items(b')[k] == Items(b)[k]; }
    }
    assert Items(b') == [None] + Items(b)[1..];
  }

  lemma AheadOfFront(i: nat, size: nat)
    requires i < size
    ensures Ahead(i, 0, size) == i && forall k: nat :: 1 <= k < size ==> Ahead(i, k, size) != i
  {
  }

  lemma TakeSlot<T>(b: Block<T>, extra: bool)
    requires BlockOk(b) && SlotsOk(b, false, extra) && Count(b) >= 1
    ensures var b' := b.(data := b.data[b.front := None]);
      BlockOk(b') && SlotsOk(b', true, extra) && b.tail != b.front
  {
  }

  /** A change of the first list only, seen from the whole. */
  lemma HeadOf<X>(whole: seq<X>, whole': seq<X>, head: seq<X>, head': seq<X>, after: seq<X>)
    requires |head| >= 1 && whole == [] + head + after && whole' == [] + head' + after
    ensures forall x :: head' == [x] + head[1..] ==> whole' == [x] + whole[1..]
    ensures head' == head[1..] ==> whole' == whole[1..]
  {
    assert whole[1..] == head[1..] + after;
  }

  lemma LiveTail<T>(s: seq<T>, n: nat)
    requires n < |s|
    ensures Live(s, n)[1..] == Live(s, n + 1)
  {
  }

  lemma FifoTake<T>(bs: seq<Block<T>>, a: Ring, b: Block<T>, sent: seq<T>, got: seq<T>)
    requires Shape(bs, a) && Fifo(bs, a, false, sent, got) && BlockOk(b) && b.next == bs[a.order[0]].next
    requires |Items(bs[a.order[0]])| >= 1 && Items(b) == [None] + Items(bs[a.order[0]])[1..]
    ensures Shape(bs[a.order[0] := b], a) && Fifo(bs[a.order[0] := b], a, true, sent, got)
  {
    hide Items, Linked, SlotsOk, LinkAt, BlockOk;
    var before, after := UpdateLinked(bs, a, 0, b);
    HeadOf(Linked(bs, a), Linked(bs[a.order[0] := b], a), Items(bs[a.order[0]]), Items(b), after);
    assert |Live(sent, |got|)| >= 1;
    hide Live, Shape;
    LiveTail(sent, |got|);
  }

  lemma Keep317<T>(q: Queue<T>, a: Ring, c: Config)
    requires Inv(q, a, c) && q.cons.C317? && q.cons.op != Peek
    ensures Inv(ConsStep(q), a, c)
  {
    hide Fill, Slots, Fifo, ProducerKnows, Capacity, Linked, Items, SlotsOk, LinkAt;
    ReadsHead(q, a, c);
    var b := q.blocks[a.order[0]];
    var b' := b.(data := b.data[b.front := None]);
    SlotsAt(q, a, c, 0);
    TakeSlot(b, 0 == ExtraAt(q.prod, a));
    TakeItems(b);
    ConsumerWrites(q, a, c, 0, b', true);
    EmptyItems(b);
    FifoTake(q.blocks, a, b', q.sent, q.got);
  }

  lemma DropSlot<T>(b: Block<T>, extra: bool)
    requires BlockOk(b) && SlotsOk(b, true, extra) && Count(b) >= 1 && b.localTail != b.front
    ensures var b' := b.(front := Inc(b.front, b.size)); BlockOk(b') && SlotsOk(b', false, extra)
  {
  }

  lemma FifoDrop<T>(bs: seq<Block<T>>, a: Ring, b: Block<T>, sent: seq<T>, got: seq<T>)
    requires Shape(bs, a) && Fifo(bs, a, true, sent, got) && BlockOk(b) && b.next == bs[a.order[0]].next
    requires |Items(bs[a.order[0]])| >= 1 && Items(b) == Items(bs[a.order[0]])[1..]
    ensures Shape(bs[a.order[0] := b], a)
    ensures Fifo(bs[a.order[0] := b], a, false, sent, got + [sent[|got|]])
  {
    hide Items, Linked, SlotsOk, LinkAt, BlockOk;
    var before, after := UpdateLinked(bs, a, 0, b);
    HeadOf(Linked(bs, a), Linked(bs[a.order[0] := b], a), Items(bs[a.order[0]]), Items(b), after);
    hide Shape;
    assert ([None] + Live(sent, |got| + 1))[1..] == Live(sent, |got| + 1);
  }

  lemma Keep324<T>(q: Queue<T>, a: Ring, c: Config)
    requires Inv(q, a, c) && q.cons.C324?
    ensures Inv(ConsStep(q), a, c)
  {
    hide Fill, Slots, Fifo, ProducerKnows, Capacity, Linked, Items, SlotsOk;
    var b := q.blocks[a.order[0]];
    var b' := b.(front := Inc(b.front, b.size));
    SlotsAt(q, a, c, 0);
    DropSlot(b, 0 == ExtraAt(q.prod, a));
    PopItems(b);
    ConsumerWrites(q, a, c, 0, b', false);
    EmptyItems(b);
    FifoDrop(q.blocks, a, b', q.sent, q.got);
  }

  /** Line 356 makes the following block the front. */
  function Rotated(a: Ring): Ring
    requires 1 <= a.t < |a.order|
  {
    Ring(a.order[1..] + [a.order[0]], a.t - 1)
  }

  lemma RotateShape<T>(bs: seq<Block<T>>, a: Ring)
    requires Shape(bs, a) && 1 <= a.t
    ensures Shape(bs, Rotated(a))
  {
    hide BlockOk, Items, SlotsOk;
    var a' := Rotated(a);
    forall i | 0 <= i < |a'.order|
      ensures LinkAt(bs, a'.order, i)
    {
      assert LinkAt(bs, a.order, Inc(i, |a.order|));
    }
  }

  lemma RotateFill<T>(bs: seq<Block<T>>, a: Ring, u: bool, extra: int, extra': int)
    requires Shape(bs, a) && 1 <= a.t && Fill(bs, a, u) && Slots(bs, a, false, extra)
    requires Count(bs[a.order[0]]) == 0
    requires (extra == extra' == -1) || (1 <= extra < |a.order| && extra' == extra - 1)
    ensures Shape(bs, Rotated(a)) && Fill(bs, Rotated(a), u) && Slots(bs, Rotated(a), false, extra')
  {
    hide BlockOk, Items, SlotsOk, LinkAt, Linked;
    RotateShape(bs, a);
    RotateAt(a);
    hide Rotated, Shape;
    assert Fill(bs, Rotated(a), u) by { hide Slots; }
    assert Slots(bs, Rotated(a), false, extra') by { hide Fill; }
  }

  lemma RotateAt(a: Ring)
    requires 1 <= a.t < |a.order|
    ensures var a' := Rotated(a);
      && |a'.order| == |a.order| && a'.t == a.t - 1
      && forall i :: 0 <= i < |a'.order| ==> a'.order[i] == if i + 1 < |a.order| then a.order[i + 1] else a.order[0]
  {
  }

  lemma RotateLinked<T>(bs: seq<Block<T>>, a: Ring)
    requires Shape(bs, a) && 1 <= a.t && Count(bs[a.order[0]]) == 0
    ensures Shape(bs, Rotated(a)) && Linked(bs, Rotated(a)) == Linked(bs, a)
  {
    RotateShape(bs, a);
    EmptyItems(bs[a.order[0]]);
    hide BlockOk, Items, SlotsOk, LinkAt;
    var ls := Lists(bs, a.order[..a.t + 1]);
    assert Flatten(ls) == ls[0] + Flatten(ls[1..]);
    assert Lists(bs, Rotated(a).order[..a.t]) == ls[1..];
  }

  lemma RotateFifo<T>(bs: seq<Block<T>>, a: Ring, sent: seq<T>, got: seq<T>)
    requires Shape(bs, a) && 1 <= a.t && Fifo(bs, a, false, sent, got) && Count(bs[a.order[0]]) == 0
    ensures Shape(bs, Rotated(a)) && Fifo(bs, Rotated(a), false, sent, got)
  {
    RotateLinked(bs, a);
    hide Shape, Linked, Live, Rotated;
  }

  lemma RotateOrder(a: Ring)
    requires 1 <= a.t < |a.order|
    ensures var o, o', n := a.order, Rotated(a).order, |a.order|;
      && |o'| == n && o'[a.t - 1] == o[a.t] && o'[Inc(a.t - 1, n)] == o[Inc(a.t, n)]
      && (a.t + 1 < n ==> o'[a.t] == o[a.t + 1])
      && (forall i :: 0 <= i < n ==> o'[i] in o)
  {
  }

  lemma RotateProducer<T>(q: Queue<T>, a: Ring, c: Config)
    requires Inv(q, a, c) && 1 <= a.t
    ensures Shape(q.blocks, Rotated(a)) && ProducerKnows(q.prod, q.blocks, Rotated(a))
  {
    hide Fill, Slots, Fifo, ConsumerKnows, Capacity, Returned, Linked, Items, SlotsOk, BlockOk, LinkAt;
    RotateShape(q.blocks, a);
    RotateOrder(a);
  }

  lemma Keep356<T>(q: Queue<T>, a: Ring, c: Config)
    requires Inv(q, a, c) && q.cons.C356?
    ensures 1 <= a.t && Inv(ConsStep(q), Rotated(a), c)
  {
    hide Fill, Slots, Fifo, ProducerKnows, Linked, Items, SlotsOk, LinkAt;
    var u := q.prod.P601? || q.prod.P631?;
    NextHasItems(q.blocks, a, u);
    RotateExtra(q, a, c);
    RotateFill(q.blocks, a, u, ExtraAt(q.prod, a), ExtraAt(q.prod, Rotated(a)));
    RotateFifo(q.blocks, a, q.sent, q.got);
    RotateProducer(q, a, c);
  }

  lemma RotateExtra<T>(q: Queue<T>, a: Ring, c: Config)
    requires Inv(q, a, c) && 1 <= a.t
    ensures var e := ExtraAt(q.prod, a);
      if e == -1 then ExtraAt(q.prod, Rotated(a)) == -1
      else 1 <= e < |a.order| && ExtraAt(q.prod, Rotated(a)) == e - 1
  {
    hide Fill, Slots, Fifo, ConsumerKnows, Capacity, Returned, Linked, Items, SlotsOk;
  }

  // ------------------------------------------------------------------ every schedule

  /** Every step of either thread keeps the invariant; the new view of the ring is returned. */
  lemma StepKeeps<T>(q: Queue<T>, a: Ring, c: Config, s: Action<T>, maxBlock: nat) returns (a': Ring)
    requires Inv(q, a, c)
    ensures Inv(Step(q, s, maxBlock), a', c)
  {
    a' := a;
    hide Inv;
    match s
    case Enqueue(x, mode) =>
      if q.prod.PIdle? {
        CallEnqueue(q, a, c, x, mode);
      }
    case Dequeue(op) =>
      if q.cons.CIdle? {
        CallDequeue(q, a, c, op);
      }
    case ProducerRuns =>
      a' := ProducerKeeps(q, a, c, maxBlock);
    case ConsumerRuns =>
      a' := ConsumerKeeps(q, a, c);
  }

  lemma CallEnqueue<T>(q: Queue<T>, a: Ring, c: Config, x: T, mode: AllocationMode)
    requires Inv(q, a, c) && q.prod.PIdle?
    ensures Inv(StartEnqueue(q, x, mode), a, c)
  {
    hide Fill, Slots, Fifo, ConsumerKnows, Capacity, Linked, Items, Shape;
  }

  lemma CallDequeue<T>(q: Queue<T>, a: Ring, c: Config, op: ConsumerOp)
    requires Inv(q, a, c) && q.cons.CIdle?
    ensures Inv(StartDequeue(q, op), a, c)
  {
    hide Fill, Slots, Fifo, ProducerKnows, Capacity, Linked, Items, Shape;
  }

  lemma ProducerKeeps<T>(q: Queue<T>, a: Ring, c: Config, maxBlock: nat) returns (a': Ring)
    requires Inv(q, a, c)
    ensures Inv(ProdStep(q, maxBlock), a', c)
    ensures a' == a || a' == a.(t := a.t + 1) || (q.prod.P622? && a.t < |a.order| && a' == Inserted(a, q.prod.nb))
  {
    hide Inv;
    a' := a;
    match q.prod
    case PIdle =>
    case PCrash =>
    case P552(_, _) => ProducerReads(q, a, c, maxBlock);
    case P554(_, _, _, _) => ProducerReads(q, a, c, maxBlock);
    case P557(_, _, _, _, _) => Keep557(q, a, c, maxBlock);
    case P564(_, _, _, _) => Keep564(q, a, c, maxBlock);
    case P568(_, _, _) => Keep568(q, a, c, maxBlock);
    case P572(_, _, _, _) => ProducerReads(q, a, c, maxBlock);
    case P572b(_, _, _, _, _) => Keep572b(q, a, c, maxBlock);
    case P581(_, _) => ProducerReads(q, a, c, maxBlock);
    case P582(_, _) => Keep582(q, a, c, maxBlock);
    case P583(_, _, _) => Keep583(q, a, c, maxBlock);
    case P595(_, _, _) => Keep595(q, a, c, maxBlock);
    case P598(_, _, _) => Keep598(q, a, c, maxBlock);
    case P601(_, _) => Keep601(q, a, c, maxBlock); a' := a.(t := a.t + 1);
    case P606(_, _) => Keep606(q, a, c, maxBlock);
    case P621(_, _, _) => Keep621(q, a, c, maxBlock);
    case P622(_, _, nb) => TailInRange(q, a, c); Keep622(q, a, c, maxBlock); a' := Inserted(a, nb);
    case P631(_, _) => Keep601(q, a, c, maxBlock); a' := a.(t := a.t + 1);
  }

  lemma TailInRange<T>(q: Queue<T>, a: Ring, c: Config)
    requires Inv(q, a, c)
    ensures a.t < |a.order|
  {
  }

  lemma ConsumerKeeps<T>(q: Queue<T>, a: Ring, c: Config) returns (a': Ring)
    requires Inv(q, a, c)
    ensures Inv(ConsStep(q), a', c)
    ensures a' == a || (1 <= a.t < |a.order| && a' == Rotated(a))
  {
    hide Inv;
    a' := a;
    match q.cons
    case CIdle =>
    case CCrash =>
    case C308(_) => ConsumerReads(q, a, c);
    case C310(_, _) => ConsumerReads(q, a, c);
    case C312(_, _, _) => Keep312(q, a, c);
    case C317(op, _, _) => if op == Peek { KeepPeek(q, a, c); } else { Keep317(q, a, c); }
    case C324(_, _, _) => Keep324(q, a, c);
    case C326(_, _, _) => ConsumerReads(q, a, c);
    case C329(_) => ConsumerReads(q, a, c);
    case C330(_, _) => Keep312(q, a, c);
    case C331(_, _, _) => ConsumerReads(q, a, c);
    case C340(_, _) => ConsumerReads(q, a, c);
    case C345(_, _) => ConsumerReads(q, a, c);
    case C346(_, _, _) => Keep346(q, a, c);
    case C356(_, _, _) => TailInRange(q, a, c); Keep356(q, a, c); a' := Rotated(a);
    case C417(_, _) => KeepPeek(q, a, c);
  }
}
