/** What one call of the blocking queue answers, whatever the producer and the kernel do meanwhile. */
module BlockingCalls {
  import opened SpscQueue
  import opened SpscQueueProof
  import opened SpscQueueTheorems
  import opened BlockingQueue
  import SpscCalls
  import Sem = Semaphore

  /** At step `k` the kernel ended the consumer's sleep without a permit. */
  ghost predicate GaveUpAt<T>(s: State<T>, acts: seq<BAction<T>>, k: nat, maxBlock: nat)
    requires k < |acts|
  {
    acts[k] == BAction.ConsumerRuns(Sem.GiveUp) && Sem.Sleeps(BRun(s, acts[..k], maxBlock).s.waiter)
  }

  ghost predicate GaveUp<T>(s: State<T>, acts: seq<BAction<T>>, maxBlock: nat) {
    exists k :: 0 <= k < |acts| && GaveUpAt(s, acts, k, maxBlock)
  }

  /** Nothing is queued but an element whose signal is still to come. */
  predicate NothingOnOffer<T>(b: State<T>) {
    Queued(b.q) == if b.s.signaller.S657? then 1 else 0
  }

  /** After `k` steps the call was waiting with nothing on offer. */
  ghost predicate SawNoneAt<T>(s: State<T>, acts: seq<BAction<T>>, k: nat, maxBlock: nat)
    requires k < |acts|
  {
    BRun(s, acts[..k], maxBlock).t.TWaiting? && NothingOnOffer(BRun(s, acts[..k], maxBlock))
  }

  ghost predicate SawNone<T>(s: State<T>, acts: seq<BAction<T>>, maxBlock: nat) {
    exists k :: 0 <= k < |acts| && SawNoneAt(s, acts, k, maxBlock)
  }

  lemma SameBefore<T>(s: State<T>, acts: seq<BAction<T>>, n: nat, k: nat, maxBlock: nat)
    requires k < n <= |acts|
    ensures GaveUpAt(s, acts[..n], k, maxBlock) == GaveUpAt(s, acts, k, maxBlock)
    ensures SawNoneAt(s, acts[..n], k, maxBlock) == SawNoneAt(s, acts, k, maxBlock)
  {
    hide BRun, NothingOnOffer, Sem.Sleeps;
    assert acts[..n][..k] == acts[..k];
  }

  lemma OneMore<T>(s: State<T>, acts: seq<BAction<T>>, maxBlock: nat)
    requires acts != []
    ensures var n := |acts| - 1; var b := BRun(s, acts[..n], maxBlock);
      && (GaveUp(s, acts, maxBlock) <==>
            GaveUp(s, acts[..n], maxBlock) || (acts[n] == BAction.ConsumerRuns(Sem.GiveUp) && Sem.Sleeps(b.s.waiter)))
      && (SawNone(s, acts, maxBlock) <==>
            SawNone(s, acts[..n], maxBlock) || (b.t.TWaiting? && NothingOnOffer(b)))
  {
    var n := |acts| - 1;
    hide BRun, NothingOnOffer, Sem.Sleeps;
    assert GaveUpAt(s, acts, n, maxBlock) <==>
      acts[n] == BAction.ConsumerRuns(Sem.GiveUp) && Sem.Sleeps(BRun(s, acts[..n], maxBlock).s.waiter);
    assert SawNoneAt(s, acts, n, maxBlock) <==>
      BRun(s, acts[..n], maxBlock).t.TWaiting? && NothingOnOffer(BRun(s, acts[..n], maxBlock));
    hide GaveUpAt, SawNoneAt;
    forall k | 0 <= k < n
      ensures GaveUpAt(s, acts[..n], k, maxBlock) == GaveUpAt(s, acts, k, maxBlock)
      ensures SawNoneAt(s, acts[..n], k, maxBlock) == SawNoneAt(s, acts, k, maxBlock)
    {
      SameBefore(s, acts, n, k, maxBlock);
    }
  }

  /** The call may come back without an element of its own accord. */
  predicate MayRefuse(op: Taking) {
    op.TryTake? || op.TryPop? || op == TimedTake(Sem.Immediate)
  }

  /** The call as far as the schedule takes it. */
  ghost predicate Takes<T>(s: State<T>, b: State<T>, op: Taking, gaveUp: bool, sawNone: bool) {
    match b.t
    case TWaiting(o) => o == op && Sem.Serves(b.s.waiter, WaitOf(op), gaveUp) && b.s.answer == Sem.NoWait && b.q.got == s.q.got
    case TTaking(o) => o == op && b.s.answer == Sem.Granted && b.q.got == s.q.got
    case TFree =>
      if b.s.answer.Granted? then b.q.consRet.Took? && b.q.got == s.q.got + [b.q.consRet.v]
      else b.s.answer.Denied? && b.q.got == s.q.got && !op.WaitTake? && (MayRefuse(op) || gaveUp) && (b.s.answer.sawNone ==> sawNone)
    case _ => false
  }

  /** The producer leaves the consumer's call alone. */
  lemma ProducerFrame<T>(b: State<T>, maxBlock: nat)
    ensures var r := ProducerRun(b, maxBlock);
      && r.t == b.t && r.q.got == b.q.got && r.q.consRet == b.q.consRet
      && r.s.waiter == b.s.waiter && r.s.answer == b.s.answer
  {
    ProducerLeaves(b.q, maxBlock);
    hide ProdStep;
  }

  lemma OthersKeep<T>(b: State<T>, a: BAction<T>, s: State<T>, op: Taking, gaveUp: bool, sawNone: bool, maxBlock: nat)
    requires !a.CallTake? && !a.CallPeek? && !a.ConsumerRuns? && Takes(s, b, op, gaveUp, sawNone)
    ensures Takes(s, BStep(b, a, maxBlock), op, gaveUp, sawNone)
  {
    hide ProducerRun, Sem.Serves;
    if a.ProducerRuns? { ProducerFrame(b, maxBlock); }
  }

  lemma MoreIsKnown<T>(s: State<T>, b: State<T>, op: Taking, gaveUp: bool, sawNone: bool)
    requires Takes(s, b, op, gaveUp, sawNone)
    ensures forall g, n :: (gaveUp ==> g) && (sawNone ==> n) ==> Takes(s, b, op, g, n)
  {
    Sem.ServesMore(b.s.waiter, WaitOf(op), gaveUp);
    hide Sem.Serves, WaitOf;
  }

  lemma OnOffer<T>(b: State<T>, a: Ring, c: Config)
    requires BInv(b, a, c) && b.t.TWaiting? && Sem.Available(b.s) == 0
    ensures NothingOnOffer(b)
  {
    hide Inv, Sem.Inv;
  }

  lemma QueueInv<T>(b: State<T>, a: Ring, c: Config)
    requires BInv(b, a, c)
    ensures Inv(b.q, a, c)
  {
  }

  /** One step of a consumer waiting for its ticket. */
  lemma WaitingStep<T>(b: State<T>, k: Sem.Kernel, s: State<T>, op: Taking, gaveUp: bool, sawNone: bool)
    requires b.t.TWaiting? && Takes(s, b, op, gaveUp, sawNone)
    ensures Takes(s, ConsumerRun(b, k), op, gaveUp || (k.GiveUp? && Sem.Sleeps(b.s.waiter)), sawNone || Sem.Available(b.s) == 0)
  {
    Sem.ServesStep(b.s, k, WaitOf(op), gaveUp);
    hide Sem.WaiterStep, Sem.Sleeps, Sem.Available;
  }

  lemma DeliveryAppends<T>(q: Queue<T>)
    ensures var r := ConsStep(q); r.got == q.got || (r.consRet.Took? && r.got == q.got + [r.consRet.v])
  {
    hide Queued, Inc;
  }

  /** One step of a consumer that holds its ticket. */
  lemma TakingStep<T>(b: State<T>, k: Sem.Kernel, a: Ring, a': Ring, c: Config, s: State<T>, op: Taking, gaveUp: bool, sawNone: bool)
    requires b.t.TTaking? && Takes(s, b, op, gaveUp, sawNone) && BInv(b, a, c) && Inv(ConsStep(b.q), a', c)
    ensures Takes(s, ConsumerRun(b, k), op, gaveUp, sawNone)
  {
    hide Inv, ConsStep, Inside, Sem.Inv;
    TicketMeansElement(b, a, c);
    InsideStep(b.q, false, a, a', c);
    DeliveryAppends(b.q);
  }

  lemma TakesStep<T>(c: Config, schedule: seq<BAction<T>>, act: BAction<T>, s: State<T>, op: Taking, gaveUp: bool, sawNone: bool, maxBlock: nat)
    requires ConfigOk(c) && !act.CallTake? && !act.CallPeek?
    requires Takes(s, BRun(BFresh<T>(c), schedule, maxBlock), op, gaveUp, sawNone)
    ensures var b := BRun(BFresh<T>(c), schedule, maxBlock);
      Takes(s, BStep(b, act, maxBlock), op,
            gaveUp || (act == BAction.ConsumerRuns(Sem.GiveUp) && Sem.Sleeps(b.s.waiter)),
            sawNone || (b.t.TWaiting? && NothingOnOffer(b)))
  {
    hide BRun, BFresh, Takes, BInv, NothingOnOffer, Sem.Sleeps, ConsumerRun, ProducerRun, StartEnqueue, StartDequeue;
    var a := BlockingQueue.RunKeeps(c, schedule, maxBlock);
    var b := BRun(BFresh<T>(c), schedule, maxBlock);
    MoreIsKnown(s, b, op, gaveUp, sawNone);
    if act.ConsumerRuns? {
      assert BStep(b, act, maxBlock) == ConsumerRun(b, act.k);
      ConsumerTakes(b, act.k, a, c, s, op, gaveUp, sawNone);
    } else {
      OthersKeep(b, act, s, op, gaveUp, sawNone, maxBlock);
      MoreIsKnown(s, BStep(b, act, maxBlock), op, gaveUp, sawNone);
    }
  }

  lemma ConsumerTakes<T>(b: State<T>, k: Sem.Kernel, a: Ring, c: Config, s: State<T>, op: Taking, gaveUp: bool, sawNone: bool)
    requires BInv(b, a, c) && Takes(s, b, op, gaveUp, sawNone)
    ensures Takes(s, ConsumerRun(b, k), op, gaveUp || (k.GiveUp? && Sem.Sleeps(b.s.waiter)), sawNone || (b.t.TWaiting? && NothingOnOffer(b)))
  {
    hide BInv, NothingOnOffer, Sem.Sleeps, Sem.Serves;
    match b.t
    case TFree =>
      MoreIsKnown(s, b, op, gaveUp, sawNone);
    case TWaiting(_) =>
      if Sem.Available(b.s) == 0 { OnOffer(b, a, c); }
      WaitingStep(b, k, s, op, gaveUp, sawNone);
      MoreIsKnown(s, ConsumerRun(b, k), op, gaveUp || (k.GiveUp? && Sem.Sleeps(b.s.waiter)), sawNone || Sem.Available(b.s) == 0);
    case TTaking(_) =>
      QueueInv(b, a, c);
      var a' := SpscQueueProof.ConsumerKeeps(b.q, a, c);
      TakingStep(b, k, a, a', c, s, op, gaveUp, sawNone);
      MoreIsKnown(s, ConsumerRun(b, k), op, gaveUp, sawNone);
    case TPeeking =>
    case TFailed =>
  }

  // ------------------------------------------------------------------ every schedule after the call

  lemma {:induction false} RunAppend<T>(b: State<T>, s: seq<BAction<T>>, t: seq<BAction<T>>, maxBlock: nat)
    ensures BRun(b, s + t, maxBlock) == BRun(BRun(b, s, maxBlock), t, maxBlock)
  {
    if t == [] {
      assert s + t == s;
    } else {
      hide BStep;
      RunAppend(b, s, t[..|t| - 1], maxBlock);
      assert (s + t)[..|s + t| - 1] == s + t[..|t| - 1];
    }
  }

  lemma Reached<T>(c: Config, schedule: seq<BAction<T>>, call: BAction<T>, acts: seq<BAction<T>>, maxBlock: nat)
    ensures BRun(BStep(BRun(BFresh<T>(c), schedule, maxBlock), call, maxBlock), acts, maxBlock)
         == BRun(BFresh<T>(c), schedule + [call] + acts, maxBlock)
  {
    hide BFresh, BStep;
    RunAppend(BFresh<T>(c), schedule + [call], acts, maxBlock);
    assert (schedule + [call])[..|schedule + [call]| - 1] == schedule;
  }

  lemma {:induction false} TakesAll<T>(c: Config, schedule: seq<BAction<T>>, op: Taking, acts: seq<BAction<T>>, maxBlock: nat)
    requires ConfigOk(c) && BRun(BFresh<T>(c), schedule, maxBlock).t.TFree?
    requires forall i :: 0 <= i < |acts| ==> !acts[i].CallTake? && !acts[i].CallPeek?
    ensures var s := BStep(BRun(BFresh<T>(c), schedule, maxBlock), CallTake(op), maxBlock);
      Takes(s, BRun(s, acts, maxBlock), op, GaveUp(s, acts, maxBlock), SawNone(s, acts, maxBlock))
  {
    hide BFresh, BStep, Takes, GaveUp, SawNone;
    var b := BRun(BFresh<T>(c), schedule, maxBlock);
    var s := BStep(b, CallTake(op), maxBlock);
    if acts == [] {
      var a := BlockingQueue.RunKeeps(c, schedule, maxBlock);
      TakeBegins(b, a, c, op, maxBlock);
      MoreIsKnown(s, s, op, false, false);
    } else {
      var n := |acts| - 1;
      TakesAll(c, schedule, op, acts[..n], maxBlock);
      Reached(c, schedule, CallTake(op), acts[..n], maxBlock);
      TakesStep(c, schedule + [CallTake(op)] + acts[..n], acts[n], s, op, GaveUp(s, acts[..n], maxBlock), SawNone(s, acts[..n], maxBlock), maxBlock);
      OneMore(s, acts, maxBlock);
    }
  }

  lemma TakeBegins<T>(b: State<T>, a: Ring, c: Config, op: Taking, maxBlock: nat)
    requires BInv(b, a, c) && b.t.TFree?
    ensures var s := BStep(b, CallTake(op), maxBlock); Takes(s, s, op, false, false)
  {
    hide Inv, Sem.Inv;
  }

  /** One call of try_dequeue, pop, wait_dequeue or wait_dequeue_timed (861-943), begun in any reachable
      state and followed by any schedule without another call of the consumer.  While it runs nothing
      is delivered.  When it has returned it delivered the oldest element; or it was refused, is not
      wait_dequeue, delivered nothing, found nothing on offer at a moment of this same call, and was
      not to wait or the kernel gave up on it.  It sleeps at line 606 of atomicops.h only if it is to
      wait for ever and at line 609 only if it has a time limit; and wait_dequeue starts its wait over
      only if the kernel gave up. */
  lemma TakeOutcome<T>(c: Config, schedule: seq<BAction<T>>, op: Taking, acts: seq<BAction<T>>, maxBlock: nat)
    requires ConfigOk(c) && BRun(BFresh<T>(c), schedule, maxBlock).t.TFree?
    requires forall i :: 0 <= i < |acts| ==> !acts[i].CallTake? && !acts[i].CallPeek?
    ensures var b := BRun(BFresh<T>(c), schedule, maxBlock);
      var s := BStep(b, CallTake(op), maxBlock);
      var r := BRun(s, acts, maxBlock);
      && (if !r.t.TFree? then r.q.got == b.q.got
          else if r.s.answer.Granted? then
            |b.q.got| < |r.q.sent| && r.q.consRet == Took(r.q.sent[|b.q.got|]) && r.q.got == b.q.got + [r.q.sent[|b.q.got|]]
          else
            && r.s.answer.Denied? && r.q.got == b.q.got && !op.WaitTake? && SawNone(s, acts, maxBlock)
            && (MayRefuse(op) || GaveUp(s, acts, maxBlock)))
      && (r.s.waiter.W606? ==> op == WaitTake || op == TimedTake(Sem.Forever))
      && (r.s.waiter.W609? ==> op == TimedTake(Sem.Timed))
      && (forall k :: StartsOver(r, k) ==> op == WaitTake && GaveUp(s, acts, maxBlock))
  {
    var b := BRun(BFresh<T>(c), schedule, maxBlock);
    var s := BStep(b, CallTake(op), maxBlock);
    var r := BRun(s, acts, maxBlock);
    TakeLeaves(b, op, maxBlock);
    hide BRun, BFresh, BStep, GaveUp, SawNone, Takes, StartsOver, MayRefuse, Contents;
    TakesAll(c, schedule, op, acts, maxBlock);
    Reached(c, schedule, CallTake(op), acts, maxBlock);
    BlockingQueue.EverySchedule(c, schedule + [CallTake(op)] + acts, maxBlock);
    var a := BlockingQueue.RunKeeps(c, schedule + [CallTake(op)] + acts, maxBlock);
    WaiterOutside(r, a, c);
    Answer(s, r, op, GaveUp(s, acts, maxBlock), SawNone(s, acts, maxBlock));
    Sleep(s, r, op, GaveUp(s, acts, maxBlock), SawNone(s, acts, maxBlock));
  }

  lemma TakeLeaves<T>(b: State<T>, op: Taking, maxBlock: nat)
    ensures BStep(b, CallTake(op), maxBlock).q == b.q
  {
  }

  lemma Answer<T>(s: State<T>, r: State<T>, op: Taking, gaveUp: bool, sawNone: bool)
    requires Takes(s, r, op, gaveUp, sawNone)
    requires r.q.got <= r.q.sent && (r.s.answer.Denied? ==> r.s.answer.sawNone)
    ensures
      if !r.t.TFree? then r.q.got == s.q.got
      else if r.s.answer.Granted? then
        |s.q.got| < |r.q.sent| && r.q.consRet == Took(r.q.sent[|s.q.got|]) && r.q.got == s.q.got + [r.q.sent[|s.q.got|]]
      else r.s.answer.Denied? && r.q.got == s.q.got && !op.WaitTake? && sawNone && (MayRefuse(op) || gaveUp)
  {
    hide Sem.Serves, MayRefuse;
  }

  lemma Sleep<T>(s: State<T>, r: State<T>, op: Taking, gaveUp: bool, sawNone: bool)
    requires Takes(s, r, op, gaveUp, sawNone) && (!r.t.TWaiting? ==> r.s.waiter.WIdle?)
    ensures r.s.waiter.W606? ==> op == WaitTake || op == TimedTake(Sem.Forever)
    ensures r.s.waiter.W609? ==> op == TimedTake(Sem.Timed)
    ensures forall k :: StartsOver(r, k) ==> op == WaitTake && gaveUp
  {
    forall k | StartsOver(r, k) ensures op == WaitTake && gaveUp {
      Sem.ServesStep(r.s, k, WaitOf(op), gaveUp);
      hide Sem.WaiterStep;
    }
  }

  lemma WaiterOutside<T>(b: State<T>, a: Ring, c: Config)
    requires BInv(b, a, c)
    ensures !b.t.TWaiting? ==> b.s.waiter.WIdle?
  {
    hide Inv, Sem.Inv;
  }

  // ------------------------------------------------------------------ a call that finds something on offer

  lemma {:induction false} MoreReleased<T>(c: Config, schedule: seq<BAction<T>>, acts: seq<BAction<T>>, maxBlock: nat)
    requires ConfigOk(c)
    ensures BRun(BFresh<T>(c), schedule + acts, maxBlock).s.released >= BRun(BFresh<T>(c), schedule, maxBlock).s.released
  {
    if acts == [] {
      assert schedule + acts == schedule;
    } else {
      var n := |acts| - 1;
      MoreReleased(c, schedule, acts[..n], maxBlock);
      assert (schedule + acts)[..|schedule + acts| - 1] == schedule + acts[..n];
      hide BFresh;
      StepReleases(BRun(BFresh<T>(c), schedule + acts[..n], maxBlock), acts[n], maxBlock);
      hide BStep;
    }
  }

  lemma StepReleases<T>(b: State<T>, a: BAction<T>, maxBlock: nat)
    ensures BStep(b, a, maxBlock).s.released >= b.s.released
  {
    hide ProdStep, ConsStep;
  }

  lemma Offered<T>(b: State<T>, a: Ring, c: Config)
    requires BInv(b, a, c)
    ensures !b.t.TTaking? ==> (NothingOnOffer(b) <==> b.s.released == |b.q.got|) && b.s.released >= |b.q.got|
  {
    hide Inv;
  }

  /** A call begun with an element on offer delivers the oldest one. */
  lemma TakeFinds<T>(c: Config, schedule: seq<BAction<T>>, op: Taking, acts: seq<BAction<T>>, maxBlock: nat)
    requires ConfigOk(c) && BRun(BFresh<T>(c), schedule, maxBlock).t.TFree? && !NothingOnOffer(BRun(BFresh<T>(c), schedule, maxBlock))
    requires forall i :: 0 <= i < |acts| ==> !acts[i].CallTake? && !acts[i].CallPeek?
    ensures var b := BRun(BFresh<T>(c), schedule, maxBlock);
      var r := BRun(BStep(b, CallTake(op), maxBlock), acts, maxBlock);
      r.t.TFree? ==> |b.q.got| < |r.q.sent| && r.q.consRet == Took(r.q.sent[|b.q.got|]) && r.q.got == b.q.got + [r.q.sent[|b.q.got|]]
  {
    hide BRun, BFresh, BStep, NothingOnOffer, GaveUp, MayRefuse;
    var b := BRun(BFresh<T>(c), schedule, maxBlock);
    var s := BStep(b, CallTake(op), maxBlock);
    TakeOutcome(c, schedule, op, acts, maxBlock);
    forall k | 0 <= k < |acts| && BRun(s, acts[..k], maxBlock).t.TWaiting? ensures !NothingOnOffer(BRun(s, acts[..k], maxBlock)) {
      StillOnOffer(c, schedule, op, acts[..k], maxBlock);
    }
  }

  lemma StillOnOffer<T>(c: Config, schedule: seq<BAction<T>>, op: Taking, acts: seq<BAction<T>>, maxBlock: nat)
    requires ConfigOk(c) && BRun(BFresh<T>(c), schedule, maxBlock).t.TFree? && !NothingOnOffer(BRun(BFresh<T>(c), schedule, maxBlock))
    requires forall i :: 0 <= i < |acts| ==> !acts[i].CallTake? && !acts[i].CallPeek?
    ensures var r := BRun(BStep(BRun(BFresh<T>(c), schedule, maxBlock), CallTake(op), maxBlock), acts, maxBlock);
      r.t.TWaiting? ==> !NothingOnOffer(r)
  {
    hide BRun, BFresh, BStep, NothingOnOffer, GaveUp, SawNone, BInv;
    var b := BRun(BFresh<T>(c), schedule, maxBlock);
    var r := BRun(BStep(b, CallTake(op), maxBlock), acts, maxBlock);
    var a := BlockingQueue.RunKeeps(c, schedule, maxBlock);
    Offered(b, a, c);
    Reached(c, schedule, CallTake(op), acts, maxBlock);
    var a' := BlockingQueue.RunKeeps(c, schedule + [CallTake(op)] + acts, maxBlock);
    Offered(r, a', c);
    TakeOutcome(c, schedule, op, acts, maxBlock);
    MoreReleased(c, schedule, [CallTake(op)] + acts, maxBlock);
    assert schedule + ([CallTake(op)] + acts) == schedule + [CallTake(op)] + acts;
  }

  // ------------------------------------------------------------------ the producer's calls

  /** The queue inside sees one of its own steps, or none. */
  lemma StepOfQueue<T>(b: State<T>, a: Ring, c: Config, act: BAction<T>, maxBlock: nat) returns (qs: seq<Action<T>>)
    requires BInv(b, a, c)
    ensures BStep(b, act, maxBlock).q == Run(b.q, qs, maxBlock)
    ensures !act.CallEnqueue? ==> forall i :: 0 <= i < |qs| ==> !qs[i].Enqueue?
  {
    hide Inv, ProdStep, ConsStep, Sem.WaiterStep, Sem.SignallerStep, Sem.Inv, Inside;
    qs := [];
    match act
    case CallEnqueue(x, mode) =>
      if b.p.PFree? { qs := [Enqueue(x, mode)]; Once(b.q, qs[0], maxBlock); }
    case CallTake(op) =>
    case CallPeek =>
      if b.t.TFree? { qs := [Dequeue(Peek)]; Once(b.q, qs[0], maxBlock); }
    case ProducerRuns =>
      if b.p.PEnqueuing? { qs := [Action.ProducerRuns]; Once(b.q, qs[0], maxBlock); }
    case ConsumerRuns(k) =>
      if b.t.TTaking? || b.t.TPeeking? {
        qs := [Action.ConsumerRuns];
        Once(b.q, qs[0], maxBlock);
      } else if b.t.TWaiting? && ConsumerRun(b, k).t.TTaking? {
        qs := [Dequeue(InnerOf(b.t.op))];
        Once(b.q, qs[0], maxBlock);
      }
  }

  lemma Once<T>(q: Queue<T>, a: Action<T>, maxBlock: nat)
    ensures Run(q, [a], maxBlock) == Step(q, a, maxBlock)
  {
    hide Step;
    assert [a][..|[a]| - 1] == [];
  }

  /** The queue inside a running blocking queue runs by a schedule of its own. */
  lemma {:induction false} RunOfQueue<T>(c: Config, schedule: seq<BAction<T>>, acts: seq<BAction<T>>, maxBlock: nat) returns (qs: seq<Action<T>>)
    requires ConfigOk(c)
    ensures BRun(BFresh<T>(c), schedule + acts, maxBlock).q == Run(BRun(BFresh<T>(c), schedule, maxBlock).q, qs, maxBlock)
    ensures (forall i :: 0 <= i < |acts| ==> !acts[i].CallEnqueue?) ==> forall i :: 0 <= i < |qs| ==> !qs[i].Enqueue?
  {
    hide BFresh, BStep, BInv, Step;
    if acts == [] {
      qs := [];
      assert schedule + acts == schedule;
    } else {
      var n := |acts| - 1;
      qs := RunOfQueue(c, schedule, acts[..n], maxBlock);
      assert (schedule + acts)[..|schedule + acts| - 1] == schedule + acts[..n];
      var a := BlockingQueue.RunKeeps(c, schedule + acts[..n], maxBlock);
      var one := StepOfQueue(BRun(BFresh<T>(c), schedule + acts[..n], maxBlock), a, c, acts[n], maxBlock);
      SpscCalls.RunAppend(BRun(BFresh<T>(c), schedule, maxBlock).q, qs, one, maxBlock);
      qs := qs + one;
    }
  }

  lemma ReachedQueue<T>(c: Config, schedule: seq<BAction<T>>, maxBlock: nat) returns (qs: seq<Action<T>>)
    requires ConfigOk(c)
    ensures BRun(BFresh<T>(c), schedule, maxBlock).q == Run(FreshQueue<T>(c.count, c.size), qs, maxBlock)
  {
    hide FreshQueue;
    qs := RunOfQueue(c, [], schedule, maxBlock);
    assert [] + schedule == schedule;
  }

  lemma PhasesSay<T>(b: State<T>, a: Ring, c: Config)
    requires BInv(b, a, c)
    ensures b.p.PEnqueuing? <==> !b.q.prod.PIdle?
    ensures b.p.PFree? ==> |b.q.sent| == b.s.released
  {
    hide Inv, Sem.Inv;
  }

  /** One call of try_enqueue or enqueue (784-841), begun in any reachable state and followed by any schedule
      without another: it appends its element and, by its return, has released it to the semaphore; or
      it was not to allocate and was refused with the requested number queued. */
  lemma EnqueueOutcome<T>(c: Config, schedule: seq<BAction<T>>, x: T, mode: AllocationMode, acts: seq<BAction<T>>, maxBlock: nat)
    requires ConfigOk(c) && BRun(BFresh<T>(c), schedule, maxBlock).p.PFree?
    requires forall i :: 0 <= i < |acts| ==> !acts[i].CallEnqueue?
    ensures var b := BRun(BFresh<T>(c), schedule, maxBlock);
      var r := BRun(BStep(b, CallEnqueue(x, mode), maxBlock), acts, maxBlock);
      && (r.p.PEnqueuing? ==> r.q.sent == b.q.sent)
      && (!r.p.PEnqueuing? ==>
            || (r.q.prodRet.Accepted? && r.q.sent == b.q.sent + [x])
            || (r.q.prodRet.Refused? && mode == CannotAlloc && r.q.sent == b.q.sent && c.request <= r.q.prodRet.seen))
      && (r.p.PFree? ==> r.s.released == |r.q.sent|)
  {
    hide BRun, BFresh, BInv, Run, FreshQueue, SpscCalls.CallSaw, SpscCalls.CallSawAtLeast;
    var b := BRun(BFresh<T>(c), schedule, maxBlock);
    var all := schedule + [CallEnqueue(x, mode)] + acts;
    var a := BlockingQueue.RunKeeps(c, schedule, maxBlock);
    var a' := BlockingQueue.RunKeeps(c, all, maxBlock);
    Reached(c, schedule, CallEnqueue(x, mode), acts, maxBlock);
    PhasesSay(b, a, c);
    PhasesSay(BRun(BFresh<T>(c), all, maxBlock), a', c);
    var before := ReachedQueue(c, schedule, maxBlock);
    CalledQueue(c, schedule, x, mode, maxBlock);
    var after := RunOfQueue(c, schedule + [CallEnqueue(x, mode)], acts, maxBlock);
    SpscCalls.EnqueueOutcome(c, before, x, mode, after, maxBlock);
  }

  lemma CalledQueue<T>(c: Config, schedule: seq<BAction<T>>, x: T, mode: AllocationMode, maxBlock: nat)
    requires ConfigOk(c)
    ensures var b := BRun(BFresh<T>(c), schedule, maxBlock);
      b.p.PFree? && b.q.prod.PIdle? ==>
        BRun(BFresh<T>(c), schedule + [CallEnqueue(x, mode)], maxBlock).q == Step(b.q, Enqueue(x, mode), maxBlock)
  {
    hide BFresh, ProdStep;
    var longer := schedule + [CallEnqueue(x, mode)];
    assert longer[..|longer| - 1] == schedule;
  }
}
