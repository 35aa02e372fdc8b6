/** A queue constructed for zero elements has one block without a usable slot.  When the producer
    comes round to that block it publishes an element into it that cannot be counted, and the
    consumer's assert of line 351 fails.  With the positive sizes' correctness this gives the exact
    condition on the constructor's argument. */
module SpscZeroSize {
  import opened Options
  import opened Words
  import opened SpscQueue
  import opened SpscQueueProof
  import opened SpscQueueTheorems
  import opened SpscConstruct

  /** A call and `n` steps of the thread that makes it. */
  function Call<T>(a: Action<T>, n: nat): seq<Action<T>> {
    if n == 0 then [a] else Call(a, n - 1) + [if a.Enqueue? then ProducerRuns else ConsumerRuns]
  }

  function ProducerRunsFor<T>(q: Queue<T>, n: nat, maxBlock: nat): Queue<T>
    decreases n
  {
    if n == 0 then q else ProdStep(ProducerRunsFor(q, n - 1, maxBlock), maxBlock)
  }

  function ConsumerRunsFor<T>(q: Queue<T>, n: nat): Queue<T>
    decreases n
  {
    if n == 0 then q else ConsStep(ConsumerRunsFor(q, n - 1))
  }

  lemma OneAction<T>(q: Queue<T>, a: Action<T>, maxBlock: nat)
    ensures Run(q, [a], maxBlock) == Step(q, a, maxBlock)
  {
    hide Step;
    assert [a][..0] == [];
  }

  lemma RunSnoc<T>(q: Queue<T>, s: seq<Action<T>>, a: Action<T>, maxBlock: nat)
    ensures Run(q, s + [a], maxBlock) == Step(Run(q, s, maxBlock), a, maxBlock)
  {
    hide Step;
    assert (s + [a])[..|s|] == s;
  }

  lemma {:induction false} CallRuns<T>(q: Queue<T>, a: Action<T>, n: nat, maxBlock: nat)
    ensures a.Enqueue? && q.prod.PIdle? ==>
      Run(q, Call(a, n), maxBlock) == ProducerRunsFor(StartEnqueue(q, a.x, a.mode), n, maxBlock)
    ensures a.Dequeue? && q.cons.CIdle? ==>
      Run(q, Call(a, n), maxBlock) == ConsumerRunsFor(StartDequeue(q, a.op), n)
    decreases n
  {
    hide ProdStep, ConsStep, Run;
    if n == 0 {
      OneAction(q, a, maxBlock);
    } else {
      CallRuns(q, a, n - 1, maxBlock);
      RunSnoc(q, Call(a, n - 1), if a.Enqueue? then ProducerRuns else ConsumerRuns, maxBlock);
    }
  }

  lemma {:induction false} RunAppend<T>(q: Queue<T>, s: seq<Action<T>>, t: seq<Action<T>>, maxBlock: nat)
    ensures Run(q, s + t, maxBlock) == Run(Run(q, s, maxBlock), t, maxBlock)
    decreases |t|
  {
    hide Step;
    if t == [] {
      assert s + t == s;
    } else {
      RunAppend(q, s, t[..|t| - 1], maxBlock);
      assert (s + t)[..|s + t| - 1] == s + t[..|t| - 1];
    }
  }

  lemma {:induction false} ConsumerRunsOn<T>(q: Queue<T>, m: nat, n: nat)
    ensures ConsumerRunsFor(q, m + n) == ConsumerRunsFor(ConsumerRunsFor(q, m), n)
    decreases n
  {
    hide ConsStep;
    if n > 0 { ConsumerRunsOn(q, m, n - 1); }
  }

  lemma {:induction false} ProducerRunsOn<T>(q: Queue<T>, m: nat, n: nat, maxBlock: nat)
    ensures ProducerRunsFor(q, m + n, maxBlock) == ProducerRunsFor(ProducerRunsFor(q, m, maxBlock), n, maxBlock)
    decreases n
  {
    hide ProdStep;
    if n > 0 { ProducerRunsOn(q, m, n - 1, maxBlock); }
  }

  /** The block of one slot, and the block of two that the first allocation adds. */
  function One<T>(d: Option<T>, next: nat): Block<T> {
    Block(1, [d], 0, 0, 0, 0, next)
  }

  function Two<T>(d0: Option<T>, d1: Option<T>, front: nat, localTail: nat, tail: nat, localFront: nat): Block<T> {
    Block(2, [d0, d1], front, localTail, tail, localFront, 0)
  }

  lemma FindsNoBlock<T>(q: Queue<T>, x: T, maxBlock: nat)
    requires q.blocks == [One<T>(None, 0)] && q.frontBlock == q.tailBlock == 0
    requires q.prod == P552(x, CanAlloc)
    ensures ProducerRunsFor(q, 5, maxBlock) == q.(prod := P606(x, 0))
  {
    assert ProducerRunsFor(q, 1, maxBlock) == q.(prod := P554(x, CanAlloc, 0, 0));
    assert ProducerRunsFor(q, 2, maxBlock) == q.(prod := P557(x, CanAlloc, 0, 0, 0));
    assert ProducerRunsFor(q, 3, maxBlock) == q.(prod := P572(x, CanAlloc, 0, Queued(q)));
    assert ProducerRunsFor(q, 4, maxBlock) == q.(prod := P572b(x, CanAlloc, 0, 0, Queued(q)));
  }

  lemma AllocatesSecond<T>(q: Queue<T>, x: T, maxBlock: nat)
    requires q.blocks == [One<T>(None, 0)] && q.largest == 1 < maxBlock && q.prod == P606(x, 0)
    ensures var q' := ProducerRunsFor(q, 4, maxBlock);
      && q'.blocks == [One(None, 1), Two(Some(x), None, 0, 1, 1, 0)]
      && q'.frontBlock == q.frontBlock && q'.tailBlock == 1 && q'.prod.PIdle? && q'.cons == q.cons
  {
    var b := Two(Some(x), None, 0, 1, 1, 0);
    assert NewBlock<T>(2, 0).data[0 := Some(x)] == b.data;
    var q1 := q.(blocks := [One(None, 0), b], largest := 2, prod := P621(x, 0, 1));
    assert ProducerRunsFor(q, 1, maxBlock) == q1;
    assert ProducerRunsFor(q, 2, maxBlock) == q1.(prod := P622(x, 0, 1));
    assert ProducerRunsFor(q, 3, maxBlock) == q1.(blocks := [One(None, 1), b], prod := P631(x, 1));
  }

  /** The first element needs a second block. */
  lemma AllocatingEnqueue<T>(q: Queue<T>, x: T, maxBlock: nat)
    requires q.blocks == [One<T>(None, 0)] && q.frontBlock == q.tailBlock == 0 && q.largest == 1 < maxBlock
    requires q.prod == P552(x, CanAlloc)
    ensures var q' := ProducerRunsFor(q, 9, maxBlock);
      && q'.blocks == [One(None, 1), Two(Some(x), None, 0, 1, 1, 0)]
      && q'.frontBlock == 0 && q'.tailBlock == 1 && q'.prod.PIdle? && q'.cons == q.cons
  {
    hide ProdStep, ProducerRunsFor;
    FindsNoBlock(q, x, maxBlock);
    AllocatesSecond(q.(prod := P606(x, 0)), x, maxBlock);
    ProducerRunsOn(q, 5, 4, maxBlock);
  }

  /** The consumer finds the front block empty and another block ahead. */
  lemma FindsEmpty<T>(q: Queue<T>, i: nat)
    requires i < 2 == |q.blocks| && q.frontBlock == i && q.tailBlock != i && q.cons == C308(TryDequeue)
    requires q.blocks[i].front == q.blocks[i].tail == q.blocks[i].localTail
    ensures ConsumerRunsFor(q, 7) == q.(cons := C340(TryDequeue, i))
  {
    assert q.blocks[i := q.blocks[i].(localTail := q.blocks[i].tail)] == q.blocks;
    assert ConsumerRunsFor(q, 1) == q.(cons := C310(TryDequeue, i));
    assert ConsumerRunsFor(q, 2) == q.(cons := C312(TryDequeue, i, q.blocks[i].front));
    assert ConsumerRunsFor(q, 3) == q.(cons := C326(TryDequeue, i, Queued(q) == 0));
    assert ConsumerRunsFor(q, 4) == q.(cons := C329(TryDequeue));
    assert ConsumerRunsFor(q, 5) == q.(cons := C330(TryDequeue, i));
    assert ConsumerRunsFor(q, 6) == q.(cons := C331(TryDequeue, i, q.blocks[i].tail));
  }

  lemma Advances<T>(q: Queue<T>, x: T)
    requires q.blocks == [One(None, 1), Two(Some(x), None, 0, 1, 1, 0)] && q.cons == C340(TryDequeue, 0)
    ensures var q' := ConsumerRunsFor(q, 6);
      && q'.blocks == [One(None, 1), Two(None, None, 1, 1, 1, 0)]
      && q'.frontBlock == 1 && q'.tailBlock == q.tailBlock && q'.cons.CIdle? && q'.prod == q.prod
  {
    assert [Some(x), None][0 := None] == [None, None];
    assert ConsumerRunsFor(q, 1) == q.(cons := C345(TryDequeue, 1));
    assert ConsumerRunsFor(q, 2) == q.(cons := C346(TryDequeue, 1, 0));
    assert ConsumerRunsFor(q, 3) == q.(cons := C356(TryDequeue, 1, 0));
    assert ConsumerRunsFor(q, 4) == q.(frontBlock := 1, cons := C317(TryDequeue, 1, 0));
    assert ConsumerRunsFor(q, 5) == q.(frontBlock := 1, cons := C324(1, 0, x),
                                       blocks := [One(None, 1), Two(None, None, 0, 1, 1, 0)]);
  }

  lemma AdvancingDequeue<T>(q: Queue<T>, x: T)
    requires q.blocks == [One(None, 1), Two(Some(x), None, 0, 1, 1, 0)] && q.frontBlock == 0 && q.tailBlock == 1
    requires q.cons == C308(TryDequeue)
    ensures var q' := ConsumerRunsFor(q, 13);
      && q'.blocks == [One(None, 1), Two(None, None, 1, 1, 1, 0)]
      && q'.frontBlock == 1 && q'.tailBlock == 1 && q'.cons.CIdle? && q'.prod == q.prod
  {
    hide ConsStep, ConsumerRunsFor;
    FindsEmpty(q, 0);
    Advances(q.(cons := C340(TryDequeue, 0)), x);
    ConsumerRunsOn(q, 7, 6);
  }

  lemma PlainEnqueue<T>(q: Queue<T>, x: T, maxBlock: nat)
    requires q.blocks == [One(None, 1), Two(None, None, 1, 1, 1, 0)] && q.frontBlock == q.tailBlock == 1
    requires q.prod == P552(x, CanAlloc)
    ensures var q' := ProducerRunsFor(q, 5, maxBlock);
      && q'.blocks == [One(None, 1), Two(None, Some(x), 1, 1, 0, 1)]
      && q'.frontBlock == 1 && q'.tailBlock == 1 && q'.prod.PIdle? && q'.cons == q.cons
  {
    assert [None, None][1 := Some(x)] == [None, Some(x)];
    assert ProducerRunsFor(q, 1, maxBlock) == q.(prod := P554(x, CanAlloc, 1, 0));
    assert ProducerRunsFor(q, 2, maxBlock) == q.(prod := P557(x, CanAlloc, 1, 1, 0));
    assert ProducerRunsFor(q, 3, maxBlock) == q.(prod := P564(x, 1, 1, 0),
                                                 blocks := [One(None, 1), Two(None, None, 1, 1, 1, 1)]);
    assert ProducerRunsFor(q, 4, maxBlock) == q.(prod := P568(x, 1, 0),
                                                 blocks := [One(None, 1), Two(None, Some(x), 1, 1, 1, 1)]);
  }

  lemma FindsFull<T>(q: Queue<T>, x: T, y: T, maxBlock: nat)
    requires q.blocks == [One(None, 1), Two(None, Some(x), 1, 1, 0, 1)] && q.frontBlock == q.tailBlock == 1
    requires q.prod == P552(y, CanAlloc)
    ensures ProducerRunsFor(q, 5, maxBlock) == q.(prod := P581(y, 1))
  {
    assert ProducerRunsFor(q, 1, maxBlock) == q.(prod := P554(y, CanAlloc, 1, 1));
    assert ProducerRunsFor(q, 2, maxBlock) == q.(prod := P557(y, CanAlloc, 1, 0, 1));
    assert ProducerRunsFor(q, 3, maxBlock) == q.(prod := P572(y, CanAlloc, 1, Queued(q)));
    assert ProducerRunsFor(q, 4, maxBlock) == q.(prod := P572b(y, CanAlloc, 1, 0, Queued(q)));
  }

  lemma UsesSmallBlock<T>(q: Queue<T>, x: T, y: T, maxBlock: nat)
    requires q.blocks == [One(None, 1), Two(None, Some(x), 1, 1, 0, 1)] && q.prod == P581(y, 1)
    ensures var q' := ProducerRunsFor(q, 6, maxBlock);
      && q'.blocks == [One(Some(y), 1), Two(None, Some(x), 1, 1, 0, 1)]
      && q'.frontBlock == q.frontBlock && q'.tailBlock == 0 && q'.prod.PIdle? && q'.cons == q.cons
  {
    assert [None][0 := Some(y)] == [Some(y)];
    assert ProducerRunsFor(q, 1, maxBlock) == q.(prod := P582(y, 0));
    assert ProducerRunsFor(q, 2, maxBlock) == q.(prod := P583(y, 0, 0));
    assert ProducerRunsFor(q, 3, maxBlock) == q.(prod := P595(y, 0, 0));
    var bs := [One(Some(y), 1), q.blocks[1]];
    assert ProducerRunsFor(q, 4, maxBlock) == q.(prod := P598(y, 0, 0), blocks := bs);
    assert ProducerRunsFor(q, 5, maxBlock) == q.(prod := P601(y, 0), blocks := bs);
  }

  /** The producer comes round to the block of one slot: publishing there does not move `tail`. */
  lemma LosingEnqueue<T>(q: Queue<T>, x: T, y: T, maxBlock: nat)
    requires q.blocks == [One(None, 1), Two(None, Some(x), 1, 1, 0, 1)] && q.frontBlock == q.tailBlock == 1
    requires q.prod == P552(y, CanAlloc)
    ensures var q' := ProducerRunsFor(q, 11, maxBlock);
      && q'.blocks == [One(Some(y), 1), Two(None, Some(x), 1, 1, 0, 1)]
      && q'.frontBlock == 1 && q'.tailBlock == 0 && q'.prod.PIdle? && q'.cons == q.cons
  {
    hide ProdStep, ProducerRunsFor;
    FindsFull(q, x, y, maxBlock);
    UsesSmallBlock(q.(prod := P581(y, 1)), x, y, maxBlock);
    ProducerRunsOn(q, 5, 6, maxBlock);
  }

  lemma PlainDequeue<T>(q: Queue<T>, x: T, y: T)
    requires q.blocks == [One(Some(y), 1), Two(None, Some(x), 1, 1, 0, 1)] && q.frontBlock == 1 && q.tailBlock == 0
    requires q.cons == C308(TryDequeue)
    ensures var q' := ConsumerRunsFor(q, 5);
      && q'.blocks == [One(Some(y), 1), Two(None, None, 0, 0, 0, 1)]
      && q'.frontBlock == 1 && q'.tailBlock == 0 && q'.cons.CIdle? && q'.prod == q.prod
  {
    assert [None, Some(x)][1 := None] == [None, None];
    assert ConsumerRunsFor(q, 1) == q.(cons := C310(TryDequeue, 1));
    assert ConsumerRunsFor(q, 2) == q.(cons := C312(TryDequeue, 1, 1));
    assert ConsumerRunsFor(q, 3) == q.(cons := C317(TryDequeue, 1, 1),
                                       blocks := [One(Some(y), 1), Two(None, Some(x), 1, 0, 0, 1)]);
    assert ConsumerRunsFor(q, 4) == q.(cons := C324(1, 1, x),
                                       blocks := [One(Some(y), 1), Two(None, None, 1, 0, 0, 1)]);
  }

  lemma AssertFails<T>(q: Queue<T>, y: T)
    requires q.blocks == [One(Some(y), 1), Two(None, None, 0, 0, 0, 1)] && q.cons == C340(TryDequeue, 1)
    ensures ConsumerRunsFor(q, 3).cons.CCrash?
  {
    assert ConsumerRunsFor(q, 1) == q.(cons := C345(TryDequeue, 0));
    assert ConsumerRunsFor(q, 2) == q.(cons := C346(TryDequeue, 0, 0));
  }

  /** The assert of line 351 fails. */
  lemma FailingDequeue<T>(q: Queue<T>, y: T)
    requires q.blocks == [One(Some(y), 1), Two(None, None, 0, 0, 0, 1)] && q.frontBlock == 1 && q.tailBlock == 0
    requires q.cons == C308(TryDequeue)
    ensures ConsumerRunsFor(q, 10).cons.CCrash?
  {
    hide ConsStep, ConsumerRunsFor;
    FindsEmpty(q, 1);
    AssertFails(q.(cons := C340(TryDequeue, 1)), y);
    ConsumerRunsOn(q, 7, 3);
  }

  function Failing<T>(x: T): seq<Action<T>> {
    Call(Enqueue(x, CanAlloc), 9) + Call(Dequeue(TryDequeue), 13) + Call(Enqueue(x, CanAlloc), 5)
    + Call(Enqueue(x, CanAlloc), 11) + Call(Dequeue(TryDequeue), 5) + Call(Dequeue(TryDequeue), 10)
  }

  /** Both threads between calls, with these blocks. */
  ghost predicate Rests<T>(q: Queue<T>, blocks: seq<Block<T>>, frontBlock: nat, tailBlock: nat) {
    q.blocks == blocks && q.frontBlock == frontBlock && q.tailBlock == tailBlock && q.prod.PIdle? && q.cons.CIdle?
  }

  lemma FirstCall<T>(q: Queue<T>, x: T, maxBlock: nat)
    requires Rests(q, [One<T>(None, 0)], 0, 0) && q.largest == 1 < maxBlock
    ensures Rests(Run(q, Call(Enqueue(x, CanAlloc), 9), maxBlock), [One(None, 1), Two(Some(x), None, 0, 1, 1, 0)], 0, 1)
  {
    hide ProdStep, ConsStep, Step, Run, Call, ProducerRunsFor, ConsumerRunsFor;
    CallRuns(q, Enqueue(x, CanAlloc), 9, maxBlock);
    AllocatingEnqueue(StartEnqueue(q, x, CanAlloc), x, maxBlock);
  }

  lemma SecondCall<T>(q: Queue<T>, x: T, maxBlock: nat)
    requires Rests(q, [One(None, 1), Two(Some(x), None, 0, 1, 1, 0)], 0, 1)
    ensures Rests(Run(q, Call(Dequeue(TryDequeue), 13), maxBlock), [One(None, 1), Two(None, None, 1, 1, 1, 0)], 1, 1)
  {
    hide ProdStep, ConsStep, Step, Run, Call, ProducerRunsFor, ConsumerRunsFor;
    CallRuns(q, Dequeue(TryDequeue), 13, maxBlock);
    AdvancingDequeue(StartDequeue(q, TryDequeue), x);
  }

  lemma ThirdCall<T>(q: Queue<T>, x: T, maxBlock: nat)
    requires Rests(q, [One(None, 1), Two(None, None, 1, 1, 1, 0)], 1, 1)
    ensures Rests(Run(q, Call(Enqueue(x, CanAlloc), 5), maxBlock), [One(None, 1), Two(None, Some(x), 1, 1, 0, 1)], 1, 1)
  {
    hide ProdStep, ConsStep, Step, Run, Call, ProducerRunsFor, ConsumerRunsFor;
    CallRuns(q, Enqueue(x, CanAlloc), 5, maxBlock);
    PlainEnqueue(StartEnqueue(q, x, CanAlloc), x, maxBlock);
  }

  lemma FourthCall<T>(q: Queue<T>, x: T, maxBlock: nat)
    requires Rests(q, [One(None, 1), Two(None, Some(x), 1, 1, 0, 1)], 1, 1)
    ensures Rests(Run(q, Call(Enqueue(x, CanAlloc), 11), maxBlock), [One(Some(x), 1), Two(None, Some(x), 1, 1, 0, 1)], 1, 0)
  {
    hide ProdStep, ConsStep, Step, Run, Call, ProducerRunsFor, ConsumerRunsFor;
    CallRuns(q, Enqueue(x, CanAlloc), 11, maxBlock);
    LosingEnqueue(StartEnqueue(q, x, CanAlloc), x, x, maxBlock);
  }

  lemma FifthCall<T>(q: Queue<T>, x: T, maxBlock: nat)
    requires Rests(q, [One(Some(x), 1), Two(None, Some(x), 1, 1, 0, 1)], 1, 0)
    ensures Rests(Run(q, Call(Dequeue(TryDequeue), 5), maxBlock), [One(Some(x), 1), Two(None, None, 0, 0, 0, 1)], 1, 0)
  {
    hide ProdStep, ConsStep, Step, Run, Call, ProducerRunsFor, ConsumerRunsFor;
    CallRuns(q, Dequeue(TryDequeue), 5, maxBlock);
    PlainDequeue(StartDequeue(q, TryDequeue), x, x);
  }

  lemma SixthCall<T>(q: Queue<T>, x: T, maxBlock: nat)
    requires Rests(q, [One(Some(x), 1), Two(None, None, 0, 0, 0, 1)], 1, 0)
    ensures Run(q, Call(Dequeue(TryDequeue), 10), maxBlock).cons.CCrash?
  {
    hide ProdStep, ConsStep, Step, Run, Call, ProducerRunsFor, ConsumerRunsFor;
    CallRuns(q, Dequeue(TryDequeue), 10, maxBlock);
    FailingDequeue(StartDequeue(q, TryDequeue), x);
  }

  lemma FreshOfSizeZero<T>()
    ensures Rests(FreshQueue<T>(1, 1), [One<T>(None, 0)], 0, 0) && FreshQueue<T>(1, 1).largest == 1
  {
    assert NewBlock<T>(1, 0) == One<T>(None, 0);
  }

  /** The schedule, call by call, on the queue built for zero elements. */
  lemma ZeroSizeFails<T>(x: T, maxBlock: nat)
    requires maxBlock >= 2
    ensures Run(FreshQueue<T>(1, 1), Failing(x), maxBlock).cons.CCrash?
  {
    FreshOfSizeZero<T>();
    hide Rests, FreshQueue, Run, Call, NewBlock, Two, One;
    var q, e, d := FreshQueue<T>(1, 1), Enqueue(x, CanAlloc), Dequeue(TryDequeue);
    var q1 := Run(q, Call(e, 9), maxBlock);
    var q2 := Run(q1, Call(d, 13), maxBlock);
    var q3 := Run(q2, Call(e, 5), maxBlock);
    var q4 := Run(q3, Call(e, 11), maxBlock);
    var q5 := Run(q4, Call(d, 5), maxBlock);
    FirstCall(q, x, maxBlock);
    SecondCall(q1, x, maxBlock);
    ThirdCall(q2, x, maxBlock);
    FourthCall(q3, x, maxBlock);
    FifthCall(q4, x, maxBlock);
    SixthCall(q5, x, maxBlock);
    SixCalls(q, Call(e, 9), Call(d, 13), Call(e, 5), Call(e, 11), Call(d, 5), Call(d, 10), maxBlock);
  }

  lemma SixCalls<T>(q: Queue<T>, s1: seq<Action<T>>, s2: seq<Action<T>>, s3: seq<Action<T>>, s4: seq<Action<T>>,
                    s5: seq<Action<T>>, s6: seq<Action<T>>, m: nat)
    ensures Run(q, s1 + s2 + s3 + s4 + s5 + s6, m)
         == Run(Run(Run(Run(Run(Run(q, s1, m), s2, m), s3, m), s4, m), s5, m), s6, m)
  {
    hide Run;
    RunAppend(q, s1, s2, m);
    RunAppend(q, s1 + s2, s3, m);
    RunAppend(q, s1 + s2 + s3, s4, m);
    RunAppend(q, s1 + s2 + s3 + s4, s5, m);
    RunAppend(q, s1 + s2 + s3 + s4 + s5, s6, m);
  }

  /** The constructed queue is correct on every schedule exactly if it was built for at least one
      element; it then refuses a non-allocating enqueue only with that many elements queued. */
  method ConstructedQueueIsCorrect<T>(size: nat, maxBlock: nat, ghost m: nat, ghost x: T) returns (q: Queue<T>)
    requires maxBlock == Pow2(m) && 2 <= maxBlock
    requires size + 1 <= Pow2(63) && size + 2 * maxBlock < TWO_64
    ensures (forall schedule: seq<Action<T>> :: Correct(Run(q, schedule, maxBlock), size)) <==> size >= 1
  {
    hide Pow2, Run, FreshQueue, Correct, ConfigOk;
    ghost var c;
    q, c := Construct<T>(size, maxBlock, m);
    if size >= 1 {
      forall schedule: seq<Action<T>> ensures Correct(Run(q, schedule, maxBlock), size) {
        EverySchedule<T>(c, schedule, maxBlock);
      }
    } else {
      ZeroSizeFails(x, maxBlock);
      CrashIsIncorrect(Run(q, Failing(x), maxBlock), size);
    }
  }

  lemma CrashIsIncorrect<T>(q: Queue<T>, size: nat)
    requires q.cons.CCrash?
    ensures !Correct(q, size)
  {
  }
}
