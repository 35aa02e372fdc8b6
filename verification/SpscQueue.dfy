/** The single-producer/single-consumer lock-free queue of
    include/message_queue/readerwriterqueue.h as a step machine under sequential consistency.

    A block is a cell of the heap `blocks`; a pointer is an index into it.  Each step below performs
    at most one access to a variable that the other thread can see, and carries in its name the source
    line of that access.  A thread that dereferences a pointer to no block, indexes outside a block's
    storage, reads raw storage, constructs over a live object or fails an assert goes to its crash
    state.  The fields from `sent` on are history variables: no branch tests them. */
module SpscQueue {
  import opened Options

  /** One circular buffer.  `size` is `sizeMask + 1`; a `None` slot is raw storage. */
  datatype Block<T> = Block(
    size: nat,
    data: seq<Option<T>>,
    front: nat,
    localTail: nat,
    tail: nat,
    localFront: nat,
    next: nat)

  /** `(i + 1) & sizeMask` for an index of a block whose size is a power of two
      (see SpscConstruct.MaskedSuccessor). */
  function Inc(i: nat, size: nat): nat {
    if i + 1 == size then 0 else i + 1
  }

  /** `(to - from) & sizeMask`: how far `to` lies ahead of `from` on the circle
      (see SpscConstruct.MaskedDistance). */
  function Dist(from: nat, to: nat, size: nat): int {
    if from <= to then to - from else to - from + size
  }

  /** The index `k` places after `i` on the circle. */
  function Ahead(i: nat, k: nat, size: nat): int {
    if i + k < size then i + k else i + k - size
  }

  datatype AllocationMode = CanAlloc | CannotAlloc

  /** The producer's program counter with its live locals; `seen` is a history variable, the number of
      queued elements when line 557 found the tail block full. */
  datatype Producer<T> =
    | PIdle
    | PCrash
    | P552(x: T, mode: AllocationMode)
    | P554(x: T, mode: AllocationMode, tb: nat, lf: nat)
    | P557(x: T, mode: AllocationMode, tb: nat, bt: nat, nt: nat)
    | P564(x: T, tb: nat, bt: nat, nt: nat)
    | P568(x: T, tb: nat, nt: nat)
    | P572(x: T, mode: AllocationMode, tb: nat, seen: nat)
    | P572b(x: T, mode: AllocationMode, tb: nat, nx: nat, seen: nat)
    | P581(x: T, tb: nat)
    | P582(x: T, nb: nat)
    | P583(x: T, nb: nat, nbf: nat)
    | P595(x: T, nb: nat, nbt: nat)
    | P598(x: T, nb: nat, nbt: nat)
    | P601(x: T, nb: nat)
    | P606(x: T, tb: nat)
    | P621(x: T, tb: nat, nb: nat)
    | P622(x: T, tb: nat, nb: nat)
    | P631(x: T, nb: nat)

  datatype ConsumerOp = TryDequeue | Pop | Peek

  /** The consumer's program counter with its live locals.  `peek` and `pop` are the same code with
      fewer stores (lines 384-421 and 426-489).  Lines 360-368 repeat 317-324 on the block just made
      the front, so they share C317 and C324.  `sawEmpty` is a history variable: every published
      element had been delivered when line 312 loaded `tail`. */
  datatype Consumer<T> =
    | CIdle
    | CCrash
    | C308(op: ConsumerOp)
    | C310(op: ConsumerOp, fb: nat)
    | C312(op: ConsumerOp, fb: nat, bf: nat)
    | C317(op: ConsumerOp, fb: nat, bf: nat)
    | C324(fb: nat, bf: nat, v: T)
    | C326(op: ConsumerOp, fb: nat, sawEmpty: bool)
    | C329(op: ConsumerOp)
    | C330(op: ConsumerOp, fb: nat)
    | C331(op: ConsumerOp, fb: nat, bt: nat)
    | C340(op: ConsumerOp, fb: nat)
    | C345(op: ConsumerOp, nb: nat)
    | C346(op: ConsumerOp, nb: nat, nbf: nat)
    | C356(op: ConsumerOp, nb: nat, nbf: nat)
    | C417(nb: nat, nbf: nat)

  datatype EnqueueResult = NotCalled | Accepted | Refused(seen: nat)
  datatype DequeueResult<T> = NoCall | Empty(sawEmpty: bool) | Took(v: T) | Peeked(v: T)

  datatype Queue<T> = Queue(
    blocks: seq<Block<T>>,
    frontBlock: nat,
    tailBlock: nat,
    largest: nat,
    prod: Producer<T>,
    cons: Consumer<T>,
    sent: seq<T>,
    got: seq<T>,
    prodRet: EnqueueResult,
    consRet: DequeueResult<T>)

  function Put<T>(q: Queue<T>, i: nat, b: Block<T>): Queue<T>
    requires i < |q.blocks|
  {
    q.(blocks := q.blocks[i := b])
  }

  function NewBlock<T>(size: nat, next: nat): Block<T> {
    Block(size, seq(size, i => None), 0, 0, 0, 0, next)
  }

  /** How many published elements are not delivered yet. */
  function Queued<T>(q: Queue<T>): nat {
    if |q.got| <= |q.sent| then |q.sent| - |q.got| else 0
  }

  /** inner_enqueue, lines 552-643: the step at the producer's program counter. */
  function ProdStep<T>(q: Queue<T>, maxBlock: nat): Queue<T> {
    var bs := q.blocks;
    var crash := q.(prod := PCrash);
    match q.prod
    case PIdle => q
    case PCrash => q
    case P552(x, mode) =>
      var tb := q.tailBlock;
      if tb >= |bs| then crash else q.(prod := P554(x, mode, tb, bs[tb].localFront))
    case P554(x, mode, tb, lf) =>
      if tb >= |bs| then crash else
      var bt := bs[tb].tail;
      var nt := Inc(bt, bs[tb].size);
      q.(prod := if nt != lf then P564(x, tb, bt, nt) else P557(x, mode, tb, bt, nt))
    case P557(x, mode, tb, bt, nt) =>
      if tb >= |bs| then crash else
      var f := bs[tb].front;
      Put(q, tb, bs[tb].(localFront := f)).(
        prod := if nt != f then P564(x, tb, bt, nt) else P572(x, mode, tb, Queued(q)))
    case P564(x, tb, bt, nt) =>
      if tb >= |bs| || bt >= |bs[tb].data| || bs[tb].data[bt].Some? then crash else
      Put(q, tb, bs[tb].(data := bs[tb].data[bt := Some(x)])).(prod := P568(x, tb, nt))
    case P568(x, tb, nt) =>
      if tb >= |bs| then crash else
      Put(q, tb, bs[tb].(tail := nt)).(prod := PIdle, sent := q.sent + [x], prodRet := Accepted)
    case P572(x, mode, tb, seen) =>
      if tb >= |bs| then crash else q.(prod := P572b(x, mode, tb, bs[tb].next, seen))
    case P572b(x, mode, tb, nx, seen) =>
      if nx != q.frontBlock then q.(prod := P581(x, tb))
      else if mode == CanAlloc then q.(prod := P606(x, tb))
      else q.(prod := PIdle, prodRet := Refused(if seen < Queued(q) then Queued(q) else seen))
    case P581(x, tb) =>
      if tb >= |bs| then crash else q.(prod := P582(x, bs[tb].next))
    case P582(x, nb) =>
      if nb >= |bs| then crash else
      var f := bs[nb].front;
      Put(q, nb, bs[nb].(localFront := f)).(prod := P583(x, nb, f))
    case P583(x, nb, nbf) =>
      if nb >= |bs| || nbf != bs[nb].tail then crash else      // the assert of line 588
      Put(q, nb, bs[nb].(localFront := nbf)).(prod := P595(x, nb, bs[nb].tail))
    case P595(x, nb, nbt) =>
      if nb >= |bs| || nbt >= |bs[nb].data| || bs[nb].data[nbt].Some? then crash else
      Put(q, nb, bs[nb].(data := bs[nb].data[nbt := Some(x)])).(prod := P598(x, nb, nbt))
    case P598(x, nb, nbt) =>
      if nb >= |bs| then crash else
      Put(q, nb, bs[nb].(tail := Inc(nbt, bs[nb].size))).(prod := P601(x, nb))
    case P601(x, nb) =>
      q.(tailBlock := nb, prod := PIdle, sent := q.sent + [x], prodRet := Accepted)
    case P606(x, tb) =>
      // The new block is reachable from no shared pointer until line 622, so 605-619 are one step.
      var size := if q.largest >= maxBlock then q.largest else q.largest * 2;
      if size == 0 then crash else
      var b := NewBlock(size, 0);
      var b' := b.(data := b.data[0 := Some(x)], tail := 1, localTail := 1);
      q.(blocks := bs + [b'], largest := size, prod := P621(x, tb, |bs|))
    case P621(x, tb, nb) =>
      if tb >= |bs| || nb >= |bs| then crash else
      Put(q, nb, bs[nb].(next := bs[tb].next)).(prod := P622(x, tb, nb))
    case P622(x, tb, nb) =>
      if tb >= |bs| then crash else
      Put(q, tb, bs[tb].(next := nb)).(prod := P631(x, nb))
    case P631(x, nb) =>
      q.(tailBlock := nb, prod := PIdle, sent := q.sent + [x], prodRet := Accepted)
  }

  /** try_dequeue (285-376), peek (384-421) and pop (426-489): the step at the consumer's program
      counter.  Reading an element moves it out and destroys it, except in a peek. */
  function ConsStep<T>(q: Queue<T>): Queue<T> {
    var bs := q.blocks;
    var crash := q.(cons := CCrash);
    match q.cons
    case CIdle => q
    case CCrash => q
    case C308(op) => q.(cons := C310(op, q.frontBlock))
    case C310(op, fb) =>
      if fb >= |bs| then crash else
      var bf := bs[fb].front;
      q.(cons := if bf != bs[fb].localTail then C317(op, fb, bf) else C312(op, fb, bf))
    case C312(op, fb, bf) =>
      if fb >= |bs| then crash else
      var t := bs[fb].tail;
      Put(q, fb, bs[fb].(localTail := t)).(
        cons := if bf != t then C317(op, fb, bf) else C326(op, fb, Queued(q) == 0))
    case C317(op, fb, bf) =>
      if fb >= |bs| || bf >= |bs[fb].data| || bs[fb].data[bf].None? then crash else
      var v := bs[fb].data[bf].value;
      if op == Peek then q.(cons := CIdle, consRet := Peeked(v)) else
      Put(q, fb, bs[fb].(data := bs[fb].data[bf := None])).(cons := C324(fb, bf, v))
    case C324(fb, bf, v) =>
      if fb >= |bs| then crash else
      Put(q, fb, bs[fb].(front := Inc(bf, bs[fb].size))).(
        cons := CIdle, got := q.got + [v], consRet := Took(v))
    case C326(op, fb, sawEmpty) =>
      if fb != q.tailBlock then q.(cons := C329(op))
      else q.(cons := CIdle, consRet := Empty(sawEmpty))
    case C329(op) => q.(cons := C330(op, q.frontBlock))
    case C330(op, fb) =>
      if fb >= |bs| then crash else
      var t := bs[fb].tail;
      Put(q, fb, bs[fb].(localTail := t)).(cons := C331(op, fb, t))
    case C331(op, fb, bt) =>
      if fb >= |bs| then crash else
      var bf := bs[fb].front;
      q.(cons := if bf != bt then C317(op, fb, bf) else C340(op, fb))
    case C340(op, fb) =>
      if fb >= |bs| then crash else q.(cons := C345(op, bs[fb].next))
    case C345(op, nb) =>
      if nb >= |bs| then crash else q.(cons := C346(op, nb, bs[nb].front))
    case C346(op, nb, nbf) =>
      if nb >= |bs| || nbf == bs[nb].tail then crash else      // the asserts of lines 351, 416, 467
      if op == Peek then q.(cons := C417(nb, nbf)) else
      Put(q, nb, bs[nb].(localTail := bs[nb].tail)).(cons := C356(op, nb, nbf))
    case C356(op, nb, nbf) => q.(frontBlock := nb, cons := C317(op, nb, nbf))
    case C417(nb, nbf) =>
      if nb >= |bs| || nbf >= |bs[nb].data| || bs[nb].data[nbf].None? then crash else
      q.(cons := CIdle, consRet := Peeked(bs[nb].data[nbf].value))
  }

  /** What the scheduler may do next: let a thread run to its next shared access, or let an idle
      thread make a call. */
  datatype Action<T> =
    | Enqueue(x: T, mode: AllocationMode)
    | ProducerRuns
    | Dequeue(op: ConsumerOp)
    | ConsumerRuns

  /** A call begins: the answer of the one before is gone. */
  function StartEnqueue<T>(q: Queue<T>, x: T, mode: AllocationMode): Queue<T> {
    q.(prod := P552(x, mode), prodRet := NotCalled)
  }

  function StartDequeue<T>(q: Queue<T>, op: ConsumerOp): Queue<T> {
    q.(cons := C308(op), consRet := NoCall)
  }

  function Step<T>(q: Queue<T>, a: Action<T>, maxBlock: nat): Queue<T> {
    match a
    case Enqueue(x, mode) => if q.prod.PIdle? then StartEnqueue(q, x, mode) else q
    case ProducerRuns => ProdStep(q, maxBlock)
    case Dequeue(op) => if q.cons.CIdle? then StartDequeue(q, op) else q
    case ConsumerRuns => ConsStep(q)
  }

  /** The state after a schedule. */
  function Run<T>(q: Queue<T>, schedule: seq<Action<T>>, maxBlock: nat): Queue<T> {
    if schedule == [] then q
    else Step(Run(q, schedule[..|schedule|-1], maxBlock), schedule[|schedule|-1], maxBlock)
  }

  /** A ring of `count` empty blocks of `size` slots each, block `i` linked to block `i + 1`. */
  function FreshQueue<T>(count: nat, size: nat): Queue<T> {
    Queue(seq(count, i requires 0 <= i < count => NewBlock(size, Inc(i, count))),
          0, 0, size, PIdle, CIdle, [], [], NotCalled, NoCall)
  }

  /** The elements a block holds, in order, read off its own indices. */
  function Items<T>(b: Block<T>): seq<Option<T>> {
    if Dist(b.front, b.tail, b.size) < 0 then [] else
    seq(Dist(b.front, b.tail, b.size), k requires 0 <= k =>
      var i := Ahead(b.front, k, b.size);
      if 0 <= i < |b.data| then b.data[i] else None)
  }

  /** What the linked ring holds: the items of the blocks met from `b` to `last`, following `next`
      for at most `fuel` links. */
  function Walk<T>(blocks: seq<Block<T>>, b: nat, last: nat, fuel: nat): seq<Option<T>>
    decreases fuel
  {
    if b >= |blocks| then []
    else if b == last || fuel == 0 then Items(blocks[b])
    else Items(blocks[b]) + Walk(blocks, blocks[b].next, last, fuel - 1)
  }

  function Contents<T>(q: Queue<T>): seq<Option<T>> {
    Walk(q.blocks, q.frontBlock, q.tailBlock, |q.blocks|)
  }

  /** The elements of `s` from position `n` on, in their slots. */
  function Live<T>(s: seq<T>, n: nat): (r: seq<Option<T>>)
    ensures |r| == if n <= |s| then |s| - n else 0
  {
    seq(if n <= |s| then |s| - n else 0, i requires 0 <= i < (if n <= |s| then |s| - n else 0) => Some(s[n + i]))
  }

  /** size_approx, lines 493-506: the elements counted block by block from `b` round to `stop`. */
  function SizeFrom<T>(blocks: seq<Block<T>>, b: nat, stop: nat, fuel: nat): nat
    decreases fuel
  {
    if b >= |blocks| then 0 else
    var here := if Dist(blocks[b].front, blocks[b].tail, blocks[b].size) < 0 then 0
                else Dist(blocks[b].front, blocks[b].tail, blocks[b].size);
    if blocks[b].next == stop || fuel == 0 then here
    else here + SizeFrom(blocks, blocks[b].next, stop, fuel - 1)
  }

  function SizeApprox<T>(q: Queue<T>): nat {
    SizeFrom(q.blocks, q.frontBlock, q.frontBlock, |q.blocks|)
  }

  /** How many shared accesses the thread still makes at most before its call returns. */
  function ProducerFuel<T>(p: Producer<T>): nat {
    match p
    case PIdle => 0
    case PCrash => 0
    case P552(_, _) => 12
    case P554(_, _, _, _) => 11
    case P557(_, _, _, _, _) => 10
    case P564(_, _, _, _) => 2
    case P568(_, _, _) => 1
    case P572(_, _, _, _) => 9
    case P572b(_, _, _, _, _) => 8
    case P581(_, _) => 6
    case P582(_, _) => 5
    case P583(_, _, _) => 4
    case P595(_, _, _) => 3
    case P598(_, _, _) => 2
    case P601(_, _) => 1
    case P606(_, _) => 4
    case P621(_, _, _) => 3
    case P622(_, _, _) => 2
    case P631(_, _) => 1
  }

  function ConsumerFuel<T>(k: Consumer<T>): nat {
    match k
    case CIdle => 0
    case CCrash => 0
    case C308(_) => 13
    case C310(_, _) => 12
    case C312(_, _, _) => 11
    case C317(_, _, _) => 2
    case C324(_, _, _) => 1
    case C326(_, _, _) => 10
    case C329(_) => 9
    case C330(_, _) => 8
    case C331(_, _, _) => 7
    case C340(_, _) => 6
    case C345(_, _) => 5
    case C346(_, _, _) => 4
    case C356(_, _, _) => 3
    case C417(_, _) => 1
  }
}
