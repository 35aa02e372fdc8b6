/** What holds of the lock-free queue after every schedule of its two threads. */
module SpscQueueTheorems {
  import opened Options
  import opened SpscQueue
  import opened Sequences
  import opened SpscQueueProof

  function FreshRing(count: nat): Ring {
    Ring(seq(count, i requires 0 <= i < count => i), 0)
  }

  lemma FreshShape<T>(c: Config)
    requires ConfigOk(c)
    ensures var bs, a := FreshQueue<T>(c.count, c.size).blocks, FreshRing(c.count);
      && |bs| == c.count && (forall i :: 0 <= i < c.count ==> bs[i] == NewBlock(c.size, Inc(i, c.count)))
      && Shape(bs, a) && Linked(bs, a) == []
  {
    var bs, a := FreshQueue<T>(c.count, c.size).blocks, FreshRing(c.count);
    forall i | 0 <= i < c.count ensures LinkAt(bs, a.order, i) {
    }
    FlattenEmpty(Lists(bs, a.order[..1]));
  }

  lemma FreshInv<T>(c: Config)
    requires ConfigOk(c)
    ensures Inv(FreshQueue<T>(c.count, c.size), FreshRing(c.count), c)
  {
    FreshShape<T>(c);
    hide Linked, Items, LinkAt, Shape, Inc;
  }

  lemma {:induction false} RunKeeps<T>(c: Config, schedule: seq<Action<T>>, maxBlock: nat) returns (a: Ring)
    requires ConfigOk(c)
    ensures Inv(Run(FreshQueue<T>(c.count, c.size), schedule, maxBlock), a, c)
  {
    hide Inv, FreshQueue;
    if schedule == [] {
      FreshInv<T>(c);
      a := FreshRing(c.count);
    } else {
      var n := |schedule| - 1;
      a := RunKeeps(c, schedule[..n], maxBlock);
      a := StepKeeps(Run(FreshQueue<T>(c.count, c.size), schedule[..n], maxBlock), a, c, schedule[n], maxBlock);
    }
  }

  // ------------------------------------------------------------------ reading the ring off the pointers

  lemma SpanTail<T>(bs: seq<Block<T>>, o: seq<nat>, i: nat, j: nat)
    requires i < j <= |o| && forall k :: 0 <= k < |o| ==> o[k] < |bs|
    ensures var ls := Lists(bs, Span(o, i, j)); ls != [] && ls[0] == Items(bs[o[i]]) && ls[1..] == Lists(bs, Span(o, i + 1, j))
  {
    hide Items, Span;
  }

  lemma FlattenUnfold<S>(ss: seq<seq<S>>)
    requires ss != []
    ensures Flatten(ss) == ss[0] + Flatten(ss[1..])
  {
  }

  lemma {:induction false} WalkFrom<T>(bs: seq<Block<T>>, a: Ring, i: nat, fuel: nat)
    requires Shape(bs, a) && i <= a.t && fuel >= a.t - i
    ensures Walk(bs, a.order[i], a.order[a.t], fuel) == Flatten(Lists(bs, Span(a.order, i, a.t + 1)))
    decreases a.t - i
  {
    hide Items, BlockOk, Span, Lists, Flatten;
    SpanTail(bs, a.order, i, a.t + 1);
    FlattenUnfold(Lists(bs, Span(a.order, i, a.t + 1)));
    if i < a.t {
      assert LinkAt(bs, a.order, i);
      WalkFrom(bs, a, i + 1, fuel - 1);
    } else {
      NothingSpanned(bs, a.order, i + 1);
    }
  }

  lemma NothingSpanned<T>(bs: seq<Block<T>>, o: seq<nat>, i: nat)
    requires i <= |o| && forall k :: 0 <= k < |o| ==> o[k] < |bs|
    ensures Flatten(Lists(bs, Span(o, i, i))) == []
  {
  }

  /** The ring positions `i` to `j`. */
  function Span(o: seq<nat>, i: nat, j: nat): (r: seq<nat>)
    requires i <= j <= |o|
    ensures |r| == j - i && forall k {:trigger r[k]} :: 0 <= k < j - i ==> r[k] == o[i + k]
  {
    seq(j - i, k requires 0 <= k < j - i => o[i + k])
  }

  lemma WalkAll<T>(bs: seq<Block<T>>, a: Ring)
    requires Shape(bs, a)
    ensures Walk(bs, a.order[0], a.order[a.t], |bs|) == Linked(bs, a)
  {
    hide Items, BlockOk, LinkAt, Walk, Span;
    WalkFrom(bs, a, 0, |bs|);
    assert Span(a.order, 0, a.t + 1) == a.order[..a.t + 1];
  }

  /** Following the `next` pointers from the front block to the tail block meets exactly the published
      and undelivered elements, in order; while the consumer is between moving an element out
      (line 318) and storing `front` (line 324) its slot is already raw. */
  lemma ContentsAreUndelivered<T>(q: Queue<T>, a: Ring, c: Config)
    requires Inv(q, a, c)
    ensures Contents(q) == if q.cons.C324? then [None] + Live(q.sent, |q.got| + 1) else Live(q.sent, |q.got|)
  {
    hide Fill, Slots, ProducerKnows, ConsumerKnows, Capacity, Returned, Items, SlotsOk, LinkAt, BlockOk, Walk, Linked, Live;
    WalkAll(q.blocks, a);
  }

  /** What a caller can observe: no thread crashed (no dangling pointer, no read of raw storage, no
      construction over a live object, no failed assert); what was delivered is a prefix of what was
      enqueued; the ring holds exactly the rest; a dequeue or peek that found nothing did so when
      nothing was queued at its load of `tail`; an answered element was the oldest one; and a
      non-allocating enqueue was refused only with at least `request` elements queued. */
  ghost predicate Correct<T>(q: Queue<T>, request: nat) {
    && !q.prod.PCrash? && !q.cons.CCrash?
    && q.got <= q.sent && (q.cons.C324? ==> |q.got| < |q.sent|)
    && Contents(q) == (if q.cons.C324? then [None] + Live(q.sent, |q.got| + 1) else Live(q.sent, |q.got|))
    && (q.consRet.Empty? ==> q.consRet.sawEmpty)
    && (q.consRet.Peeked? && q.cons.CIdle? ==> |q.got| < |q.sent| && q.consRet.v == q.sent[|q.got|])
    && (q.consRet.Took? && q.cons.CIdle? ==> 1 <= |q.got| && q.consRet.v == q.got[|q.got| - 1])
    && (q.prodRet.Refused? ==> request <= q.prodRet.seen)
  }

  lemma InvCorrect<T>(q: Queue<T>, a: Ring, c: Config)
    requires Inv(q, a, c)
    ensures Correct(q, c.request)
  {
    ContentsAreUndelivered(q, a, c);
    hide Fill, Slots, Linked, Capacity, Items, SlotsOk, Shape, Walk, Contents, Live;
  }

  /** The main result: every schedule of calls and steps leaves the queue correct. */
  lemma EverySchedule<T>(c: Config, schedule: seq<Action<T>>, maxBlock: nat)
    requires ConfigOk(c)
    ensures Correct(Run(FreshQueue<T>(c.count, c.size), schedule, maxBlock), c.request)
  {
    var a := RunKeeps(c, schedule, maxBlock);
    InvCorrect(Run(FreshQueue<T>(c.count, c.size), schedule, maxBlock), a, c);
  }

  lemma ProducerProgress<T>(q: Queue<T>, maxBlock: nat)
    requires !q.prod.PIdle? && !q.prod.PCrash?
    ensures ProducerFuel(ProdStep(q, maxBlock).prod) < ProducerFuel(q.prod) <= 12
    ensures ProdStep(q, maxBlock).cons == q.cons
  {
  }

  lemma ConsumerProgress<T>(q: Queue<T>)
    requires !q.cons.CIdle? && !q.cons.CCrash?
    ensures ConsumerFuel(ConsStep(q).cons) < ConsumerFuel(q.cons) <= 13
    ensures ConsStep(q).prod == q.prod
  {
  }

  /** Both operations are wait-free: whatever the other thread does in between, each step of a thread
      inside a call brings its return strictly closer, and the other thread's steps do not move it. */
  lemma WaitFree<T>(c: Config, schedule: seq<Action<T>>, maxBlock: nat)
    requires ConfigOk(c)
    ensures var q := Run(FreshQueue<T>(c.count, c.size), schedule, maxBlock);
      && (!q.cons.CIdle? ==>
            && ConsumerFuel(ConsStep(q).cons) < ConsumerFuel(q.cons) <= 13
            && ConsStep(q).prod == q.prod)
      && (!q.prod.PIdle? ==>
            && ProducerFuel(ProdStep(q, maxBlock).prod) < ProducerFuel(q.prod) <= 12
            && ProdStep(q, maxBlock).cons == q.cons)
  {
    hide Run, FreshQueue, Contents, ProdStep, ConsStep, ProducerFuel, ConsumerFuel;
    EverySchedule(c, schedule, maxBlock);
    var q := Run(FreshQueue<T>(c.count, c.size), schedule, maxBlock);
    if !q.cons.CIdle? {
      ConsumerProgress(q);
    }
    if !q.prod.PIdle? {
      ProducerProgress(q, maxBlock);
    }
  }

  /** A consumer that found an element, or another block ahead at line 326. */
  predicate Committed<T>(k: Consumer<T>) {
    !k.CIdle? && !k.CCrash? && !k.C308? && !k.C310? && !k.C312? && !k.C326?
  }

  lemma CommittedStep<T>(q: Queue<T>)
    requires Committed(q.cons)
    ensures var r := ConsStep(q);
      r.cons.CCrash? || Committed(r.cons) || (r.cons.CIdle? && (r.consRet.Took? || r.consRet.Peeked?))
  {
  }

  /** Once the test of line 326 is passed a dequeue, pop or peek cannot come back empty: on every schedule
      its next step stays on the way or answers the oldest undelivered element. */
  lemma CommittedDelivers<T>(c: Config, schedule: seq<Action<T>>, maxBlock: nat)
    requires ConfigOk(c)
    requires Committed(Run(FreshQueue<T>(c.count, c.size), schedule, maxBlock).cons)
    ensures var r := Run(FreshQueue<T>(c.count, c.size), schedule + [ConsumerRuns], maxBlock);
      || Committed(r.cons)
      || (r.cons.CIdle? && r.consRet.Took? && r.got != [] && r.got <= r.sent && r.consRet.v == r.got[|r.got| - 1])
      || (r.cons.CIdle? && r.consRet.Peeked? && |r.got| < |r.sent| && r.consRet.v == r.sent[|r.got|])
  {
    hide ConsStep, FreshQueue, Contents, Committed;
    var longer := schedule + [ConsumerRuns];
    assert longer[..|longer| - 1] == schedule;
    CommittedStep(Run(FreshQueue<T>(c.count, c.size), schedule, maxBlock));
    EverySchedule<T>(c, longer, maxBlock);
  }

  /** What the constructor's size is for: on every schedule an enqueue is refused, or goes on to allocate a
      block at line 606, only if that many elements were queued when line 557 found the tail block full,
      or are queued now. */
  lemma AllocatesOnlyWhenFull<T>(c: Config, schedule: seq<Action<T>>, maxBlock: nat)
    requires ConfigOk(c)
    requires Run(FreshQueue<T>(c.count, c.size), schedule, maxBlock).prod.P572b?
    ensures var q := Run(FreshQueue<T>(c.count, c.size), schedule, maxBlock);
      !ProdStep(q, maxBlock).prod.P581? ==> c.request <= q.prod.seen || c.request <= Queued(q)
  {
    hide Inv, Run, FreshQueue;
    var a := RunKeeps(c, schedule, maxBlock);
    var q := Run(FreshQueue<T>(c.count, c.size), schedule, maxBlock);
    if q.prod.nx == q.frontBlock { NoBlockAhead(q, a, c); }
  }

  /** `seen` is what was queued at the load of line 557 of the same call. */
  lemma SeenAt557<T>(q: Queue<T>, maxBlock: nat)
    ensures !q.prod.P572? && ProdStep(q, maxBlock).prod.P572? ==>
      q.prod.P557? && ProdStep(q, maxBlock).prod.seen == Queued(q)
    ensures !q.prod.P572b? && ProdStep(q, maxBlock).prod.P572b? ==> q.prod.P572? && ProdStep(q, maxBlock).prod.seen == q.prod.seen
    ensures !q.prod.P606? && ProdStep(q, maxBlock).prod.P606? ==> q.prod.P572b?
  {
  }

  // ------------------------------------------------------------------ what one step of the producer leaves

  lemma ProducerLeaves<T>(q: Queue<T>, maxBlock: nat)
    ensures var q' := ProdStep(q, maxBlock);
      q'.got == q.got && q'.cons == q.cons && q'.consRet == q.consRet && q'.frontBlock == q.frontBlock
  {
  }

  /** The element of the call under way is appended exactly when the call returns with it accepted. */
  lemma ProducerSends<T>(q: Queue<T>, maxBlock: nat)
    requires !q.prod.PIdle? && !q.prod.PCrash?
    ensures var q' := ProdStep(q, maxBlock);
      q'.sent == if q'.prod.PIdle? && q'.prodRet.Accepted? then q.sent + [q.prod.x] else q.sent
  {
  }

  lemma ProducerCarries<T>(q: Queue<T>, maxBlock: nat)
    requires !q.prod.PIdle? && !q.prod.PCrash?
    ensures var r := ProdStep(q, maxBlock).prod; r.PIdle? || r.PCrash? || r.x == q.prod.x
  {
  }

  // ------------------------------------------------------------------ size_approx

  ghost function Counts<T>(bs: seq<Block<T>>, ids: seq<nat>): int
    requires forall i :: 0 <= i < |ids| ==> ids[i] < |bs|
  {
    if ids == [] then 0 else Count(bs[ids[0]]) + Counts(bs, ids[1..])
  }

  lemma {:induction false} SizeWalk<T>(bs: seq<Block<T>>, a: Ring, i: nat, fuel: nat)
    requires Shape(bs, a) && i < |a.order| && fuel >= |a.order| - i
    ensures SizeFrom(bs, a.order[i], a.order[0], fuel) == Counts(bs, a.order[i..])
    decreases |a.order| - i
  {
    hide Items;
    assert LinkAt(bs, a.order, i);
    assert a.order[i..][1..] == a.order[i + 1..];
    if i + 1 < |a.order| {
      SizeWalk(bs, a, i + 1, fuel - 1);
    }
  }

  lemma {:induction false} CountsSplit<T>(bs: seq<Block<T>>, xs: seq<nat>, ys: seq<nat>)
    requires forall i :: 0 <= i < |xs| ==> xs[i] < |bs|
    requires forall i :: 0 <= i < |ys| ==> ys[i] < |bs|
    ensures Counts(bs, xs + ys) == Counts(bs, xs) + Counts(bs, ys)
  {
    hide Count;
    if xs == [] {
      assert xs + ys == ys;
    } else {
      CountsSplit(bs, xs[1..], ys);
      assert (xs + ys)[1..] == xs[1..] + ys;
    }
  }

  lemma {:induction false} CountsAreItems<T>(bs: seq<Block<T>>, ids: seq<nat>)
    requires forall i :: 0 <= i < |ids| ==> ids[i] < |bs| && BlockOk(bs[ids[i]])
    ensures Counts(bs, ids) == |Flatten(Lists(bs, ids))|
  {
    if ids != [] {
      EmptyItems(bs[ids[0]]);
      CountsAreItems(bs, ids[1..]);
      hide Items, BlockOk, Count;
      assert Lists(bs, ids)[1..] == Lists(bs, ids[1..]);
    }
  }

  lemma {:induction false} CountsEmpty<T>(bs: seq<Block<T>>, ids: seq<nat>)
    requires forall i :: 0 <= i < |ids| ==> ids[i] < |bs| && Count(bs[ids[i]]) == 0
    ensures Counts(bs, ids) == 0
  {
    if ids != [] {
      CountsEmpty(bs, ids[1..]);
    }
  }

  /** With the producer between calls, size_approx counts exactly the undelivered elements. */
  lemma SizeIsQueued<T>(q: Queue<T>, a: Ring, c: Config)
    requires Inv(q, a, c) && q.prod.PIdle?
    ensures SizeApprox(q) == Queued(q)
  {
    hide Slots, Capacity, Returned, Items, SlotsOk, ProducerKnows, ConsumerKnows, Fifo, LinkAt, BlockOk, Lists, Counts, SizeFrom;
    QueuedAtLeast(q, a, c);
    SizeOfRing(q.blocks, a);
    WalkStarts(q, a, c);
  }

  lemma WalkStarts<T>(q: Queue<T>, a: Ring, c: Config)
    requires Inv(q, a, c)
    ensures SizeApprox(q) == SizeFrom(q.blocks, a.order[0], a.order[0], |q.blocks|)
  {
    hide SizeFrom, Fill, Slots, Capacity, Returned, ProducerKnows, ConsumerKnows, Fifo, LinkAt, BlockOk;
  }

  lemma SizeOfRing<T>(bs: seq<Block<T>>, a: Ring)
    requires Shape(bs, a) && Fill(bs, a, false)
    ensures SizeFrom(bs, a.order[0], a.order[0], |bs|) == |Linked(bs, a)|
  {
    hide Items, SlotsOk, LinkAt, Counts, Lists, SizeFrom;
    SizeWalk(bs, a, 0, |bs|);
    assert a.order[0..] == a.order[..a.t + 1] + a.order[a.t + 1..];
    CountsSplit(bs, a.order[..a.t + 1], a.order[a.t + 1..]);
    CountsAreItems(bs, a.order[..a.t + 1]);
    CountsEmpty(bs, a.order[a.t + 1..]);
  }

  /** size_approx between enqueues, on every schedule; the consumer may be anywhere. */
  lemma SizeOnEverySchedule<T>(c: Config, schedule: seq<Action<T>>, maxBlock: nat)
    requires ConfigOk(c)
    ensures var q := Run(FreshQueue<T>(c.count, c.size), schedule, maxBlock);
      q.prod.PIdle? ==> SizeApprox(q) == |q.sent| - |q.got|
  {
    hide Run, FreshQueue, Inv, SizeApprox, Contents;
    var a := RunKeeps(c, schedule, maxBlock);
    var q := Run(FreshQueue<T>(c.count, c.size), schedule, maxBlock);
    EverySchedule<T>(c, schedule, maxBlock);
    if q.prod.PIdle? { SizeIsQueued(q, a, c); }
  }
}
