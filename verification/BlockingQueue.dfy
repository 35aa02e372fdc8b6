/** BlockingReaderWriterQueue (include/message_queue/readerwriterqueue.h, lines 759-990): the
    lock-free queue and the semaphore composed.  The producer signals after each accepted enqueue; the
    consumer dequeues only after a successful wait. */
module BlockingQueue {
  import opened SpscQueue
  import opened SpscQueueProof
  import opened SpscQueueTheorems
  import SpscCalls
  import Sem = Semaphore

  datatype Taking = TryTake | WaitTake | TimedTake(timeout: Sem.Timeout) | TryPop

  datatype ProducerCall = PFree | PEnqueuing | PSignalling

  /** TFailed: an assert of lines 865, 881, 900 or 938 failed. */
  datatype ConsumerCall = TFree | TWaiting(op: Taking) | TTaking(op: Taking) | TPeeking | TFailed

  datatype State<T> = State(q: Queue<T>, s: Sem.Sem, p: ProducerCall, t: ConsumerCall)

  function WaitOf(op: Taking): Sem.WaitCall {
    match op
    case TryTake => Sem.TryWait
    case TryPop => Sem.TryWait
    case WaitTake => Sem.Wait(Sem.Forever)
    case TimedTake(timeout) => Sem.Wait(timeout)
  }

  function InnerOf(op: Taking): ConsumerOp {
    if op.TryPop? then Pop else TryDequeue
  }

  /** try_enqueue and enqueue, lines 784-841. */
  function ProducerRun<T>(b: State<T>, maxBlock: nat): State<T> {
    match b.p
    case PFree => b
    case PEnqueuing =>
      var q := ProdStep(b.q, maxBlock);
      if !q.prod.PIdle? then b.(q := q)
      else if q.prodRet.Accepted? then b.(q := q, s := Sem.Step(b.s, Sem.CallSignal(0)), p := PSignalling)
      else b.(q := q, p := PFree)
    case PSignalling =>
      var s := Sem.SignallerStep(b.s);
      b.(s := s, p := if s.signaller.SIdle? then PFree else PSignalling)
  }

  /** try_dequeue, wait_dequeue, wait_dequeue_timed, pop and peek, lines 861-943. */
  function ConsumerRun<T>(b: State<T>, k: Sem.Kernel): State<T> {
    match b.t
    case TFree => b
    case TFailed => b
    case TWaiting(op) =>
      var s := Sem.WaiterStep(b.s, k);
      if !s.waiter.WIdle? then b.(s := s)
      else if s.answer.Granted? then b.(s := s, q := StartDequeue(b.q, InnerOf(op)), t := TTaking(op))
      else if op.WaitTake? then b.(s := Sem.Step(s, Sem.CallWait(WaitOf(op))))
      else b.(s := s, t := TFree)
    case TTaking(op) =>
      var q := ConsStep(b.q);
      if !q.cons.CIdle? then b.(q := q)
      else b.(q := q, t := if q.consRet.Took? then TFree else TFailed)
    case TPeeking =>
      var q := ConsStep(b.q);
      b.(q := q, t := if q.cons.CIdle? then TFree else TPeeking)
  }

  datatype BAction<T> =
    | CallEnqueue(x: T, mode: AllocationMode)
    | CallTake(op: Taking)
    | CallPeek
    | ProducerRuns
    | ConsumerRuns(k: Sem.Kernel)

  function BStep<T>(b: State<T>, a: BAction<T>, maxBlock: nat): State<T> {
    match a
    case CallEnqueue(x, mode) => if b.p.PFree? then b.(q := StartEnqueue(b.q, x, mode), p := PEnqueuing) else b
    case CallTake(op) =>
      if b.t.TFree? then b.(s := Sem.Step(b.s, Sem.CallWait(WaitOf(op))), t := TWaiting(op)) else b
    case CallPeek => if b.t.TFree? then b.(q := StartDequeue(b.q, Peek), t := TPeeking) else b
    case ProducerRuns => ProducerRun(b, maxBlock)
    case ConsumerRuns(k) => ConsumerRun(b, k)
  }

  function BRun<T>(b: State<T>, schedule: seq<BAction<T>>, maxBlock: nat): State<T> {
    if schedule == [] then b
    else BStep(BRun(b, schedule[..|schedule| - 1], maxBlock), schedule[|schedule| - 1], maxBlock)
  }

  function BFresh<T>(c: Config): State<T> {
    State(FreshQueue(c.count, c.size), Sem.Fresh(0), PFree, TFree)
  }

  /** The consumer is inside a peek, or inside a dequeue or pop that saw an element at line 312. */
  ghost predicate Inside<T>(k: Consumer<T>, peek: bool) {
    match k
    case CIdle => false
    case CCrash => false
    case C308(op) => (op == Peek) == peek
    case C310(op, _) => (op == Peek) == peek
    case C312(op, _, _) => (op == Peek) == peek
    case C317(op, _, _) => (op == Peek) == peek
    case C324(_, _, _) => !peek
    case C326(op, _, sawEmpty) => (op == Peek) == peek && (peek || !sawEmpty)
    case C329(op) => (op == Peek) == peek
    case C330(op, _) => (op == Peek) == peek
    case C331(op, _, _) => (op == Peek) == peek
    case C340(op, _) => (op == Peek) == peek
    case C345(op, _) => (op == Peek) == peek
    case C346(op, _, _) => (op == Peek) == peek
    case C356(op, _, _) => (op == Peek) == peek
    case C417(_, _) => peek
  }

  /** Elements published, signalled and delivered against waits granted. */
  ghost predicate Tickets<T>(b: State<T>) {
    && b.s.initial == 0
    && |b.q.sent| == b.s.released + (if b.s.signaller.S657? then 1 else 0)
    && b.s.taken == |b.q.got| + (if b.t.TTaking? then 1 else 0)
  }

  ghost predicate Phases<T>(b: State<T>) {
    && (match b.p
        case PFree => b.q.prod.PIdle? && b.s.signaller.SIdle?
        case PEnqueuing => !b.q.prod.PIdle? && b.s.signaller.SIdle?
        case PSignalling => b.q.prod.PIdle? && ((b.s.signaller.S657? && b.s.signaller.n == 1) || b.s.signaller.S661?))
    && (match b.t
        case TFree => b.q.cons.CIdle? && b.s.waiter.WIdle?
        case TWaiting(_) => b.q.cons.CIdle? && !b.s.waiter.WIdle?
        case TTaking(_) => Inside(b.q.cons, false) && b.s.waiter.WIdle?
        case TPeeking => Inside(b.q.cons, true) && b.s.waiter.WIdle?
        case TFailed => false)
  }

  ghost predicate BInv<T>(b: State<T>, a: Ring, c: Config) {
    Inv(b.q, a, c) && Sem.Inv(b.s) && Tickets(b) && Phases(b)
  }

  // ------------------------------------------------------------------ the queue's steps, seen from outside

  lemma ProducerHistory<T>(q: Queue<T>, maxBlock: nat)
    requires !q.prod.PIdle?
    ensures var q' := ProdStep(q, maxBlock);
      && q'.got == q.got && q'.cons == q.cons && q'.consRet == q.consRet
      && (!q'.prod.PIdle? ==> q'.sent == q.sent)
      && (q'.prod.PIdle? && q'.prodRet.Accepted? ==> |q'.sent| == |q.sent| + 1)
      && (q'.prod.PIdle? && !q'.prodRet.Accepted? ==> q'.sent == q.sent)
  {
    ProducerLeaves(q, maxBlock);
    if !q.prod.PCrash? {
      hide ProdStep;
      ProducerSends(q, maxBlock);
    }
  }

  lemma StaysInside<T>(q: Queue<T>, peek: bool)
    requires Inside(q.cons, peek) && !ConsStep(q).cons.CCrash?
    requires q.cons.C356? ==> q.cons.op != Peek
    requires peek || Queued(q) >= 1
    ensures var q' := ConsStep(q);
      if !q'.cons.CIdle? then Inside(q'.cons, peek) && q'.got == q.got
      else if peek then q'.got == q.got
      else (q'.consRet.Took? && |q'.got| == |q.got| + 1) || (q'.consRet == Empty(false))
  {
  }

  /** A dequeue or pop started with an element queued goes on or delivers; it never comes back empty.
      A peek takes nothing. */
  lemma InsideStep<T>(q: Queue<T>, peek: bool, a: Ring, a': Ring, c: Config)
    requires Inside(q.cons, peek) && (peek || Queued(q) >= 1)
    requires Inv(q, a, c) && Inv(ConsStep(q), a', c)
    ensures var q' := ConsStep(q);
      if !q'.cons.CIdle? then Inside(q'.cons, peek) && q'.got == q.got
      else if peek then q'.got == q.got
      else q'.consRet.Took? && |q'.got| == |q.got| + 1
  {
    hide ConsStep, Fill, Slots, Fifo, Capacity, ProducerKnows, Linked, Shape, Inside;
    StaysInside(q, peek);
  }

  /** With a ticket in hand there is an element to take. */
  lemma TicketMeansElement<T>(b: State<T>, a: Ring, c: Config)
    requires BInv(b, a, c) && b.t.TTaking?
    ensures Queued(b.q) >= 1
  {
    hide Inv;
  }

  // ------------------------------------------------------------------ every step

  lemma ProducerKeeps<T>(b: State<T>, a: Ring, c: Config, maxBlock: nat) returns (a': Ring)
    requires BInv(b, a, c)
    ensures BInv(ProducerRun(b, maxBlock), a', c)
  {
    hide Inv, ProdStep, Inside;
    a' := a;
    match b.p
    case PFree =>
    case PEnqueuing =>
      ProducerHistory(b.q, maxBlock);
      a' := SpscQueueProof.ProducerKeeps(b.q, a, c, maxBlock);
      Sem.StepKeeps(b.s, Sem.CallSignal(0));
    case PSignalling =>
      Sem.StepKeeps(b.s, Sem.SignallerRuns);
  }

  /** What a step of the waiter leaves, and how it accounts for a grant. */
  lemma WaiterFrame(s: Sem.Sem, k: Sem.Kernel)
    requires !s.waiter.WIdle?
    ensures var r := Sem.WaiterStep(s, k);
      && r.initial == s.initial && r.released == s.released && r.signaller == s.signaller
      && r.taken == s.taken + if r.waiter.WIdle? && r.answer.Granted? then 1 else 0
  {
  }

  lemma WaitingKeeps<T>(b: State<T>, a: Ring, c: Config, k: Sem.Kernel)
    requires BInv(b, a, c) && b.t.TWaiting?
    ensures BInv(ConsumerRun(b, k), a, c)
  {
    hide Inv, Sem.WaiterStep, Sem.Inv;
    Sem.StepKeeps(b.s, Sem.WaiterRuns(k));
    WaiterFrame(b.s, k);
    var s := Sem.WaiterStep(b.s, k);
    Sem.StepKeeps(s, Sem.CallWait(WaitOf(b.t.op)));
    CallDequeue(b.q, a, c, InnerOf(b.t.op));
    if s.waiter.WIdle? { Answered(b.s, k); }
  }

  lemma ConsumerKeeps<T>(b: State<T>, a: Ring, c: Config, k: Sem.Kernel) returns (a': Ring)
    requires BInv(b, a, c)
    ensures BInv(ConsumerRun(b, k), a', c)
  {
    hide Inv, ConsStep, Inside, Sem.Inv;
    a' := a;
    match b.t
    case TFree =>
    case TFailed =>
    case TWaiting(_) => WaitingKeeps(b, a, c, k);
    case TTaking(_) =>
      a' := SpscQueueProof.ConsumerKeeps(b.q, a, c);
      TicketMeansElement(b, a, c);
      InsideStep(b.q, false, a, a', c);
      SpscCalls.ConsumerLeaves(b.q);
    case TPeeking =>
      a' := SpscQueueProof.ConsumerKeeps(b.q, a, c);
      InsideStep(b.q, true, a, a', c);
      SpscCalls.ConsumerLeaves(b.q);
  }

  lemma StepKeeps<T>(b: State<T>, a: Ring, c: Config, s: BAction<T>, maxBlock: nat) returns (a': Ring)
    requires BInv(b, a, c)
    ensures BInv(BStep(b, s, maxBlock), a', c)
  {
    hide Inv, Sem.Inv, ProducerRun, ConsumerRun;
    a' := a;
    match s
    case CallEnqueue(x, mode) =>
      if b.p.PFree? {
        SpscQueueProof.CallEnqueue(b.q, a, c, x, mode);
      }
    case CallTake(op) =>
      Sem.StepKeeps(b.s, Sem.CallWait(WaitOf(op)));
    case CallPeek =>
      if b.t.TFree? {
        CallDequeue(b.q, a, c, Peek);
      }
    case ProducerRuns => a' := ProducerKeeps(b, a, c, maxBlock);
    case ConsumerRuns(k) => a' := ConsumerKeeps(b, a, c, k);
  }

  lemma FreshFields<T>(c: Config)
    ensures var q := FreshQueue<T>(c.count, c.size); q.sent == q.got == [] && q.prod.PIdle? && q.cons.CIdle?
  {
  }

  lemma BFreshInv<T>(c: Config)
    requires ConfigOk(c)
    ensures BInv(BFresh<T>(c), FreshRing(c.count), c)
  {
    hide Inv, FreshQueue, FreshRing, Sem.Inv;
    Sem.FreshInv(0);
    FreshInv<T>(c);
    FreshFields<T>(c);
  }

  lemma {:induction false} RunKeeps<T>(c: Config, schedule: seq<BAction<T>>, maxBlock: nat) returns (a: Ring)
    requires ConfigOk(c)
    ensures BInv(BRun(BFresh<T>(c), schedule, maxBlock), a, c)
  {
    hide BInv, BFresh, BStep;
    if schedule == [] {
      BFreshInv<T>(c);
      a := FreshRing(c.count);
    } else {
      var n := |schedule| - 1;
      a := RunKeeps(c, schedule[..n], maxBlock);
      a := StepKeeps(BRun(BFresh<T>(c), schedule[..n], maxBlock), a, c, schedule[n], maxBlock);
    }
  }

  /** On every schedule of the blocking queue: the asserts that the inner dequeue or pop succeeds never
      fail, the inner queue and the semaphore behave, a wait that was refused found nothing on offer,
      and with both threads between calls the semaphore counts exactly the undelivered elements. */
  lemma EverySchedule<T>(c: Config, schedule: seq<BAction<T>>, maxBlock: nat)
    requires ConfigOk(c)
    ensures var b := BRun(BFresh<T>(c), schedule, maxBlock);
      && !b.t.TFailed? && !b.s.signaller.SCrash?
      && Correct(b.q, c.request)
      && (b.s.answer.Denied? ==> b.s.answer.sawNone)
      && (b.p.PFree? && b.t.TFree? ==> b.s.count == Queued(b.q))
      && (b.t.TTaking? ==> Queued(b.q) >= 1)
  {
    var a := RunKeeps(c, schedule, maxBlock);
    var b := BRun(BFresh<T>(c), schedule, maxBlock);
    InvCorrect(b.q, a, c);
    hide Inv, BRun, BFresh, Inside;
    if b.t.TTaking? {
      TicketMeansElement(b, a, c);
    }
  }

  predicate Starved<T>(b: State<T>) {
    !b.p.PSignalling? && (b.s.waiter.W606? || b.s.waiter.W609?) && b.s.permits == 0
  }

  lemma StarvedMeansEmpty<T>(b: State<T>, a: Ring, c: Config)
    requires BInv(b, a, c) && Starved(b)
    ensures |b.q.got| == |b.q.sent|
  {
    hide Inv, Inside;
  }

  /** A blocked consumer with no signal under way means the queue is empty: no wake-up is lost. */
  lemma NoLostWakeup<T>(c: Config, schedule: seq<BAction<T>>, maxBlock: nat)
    requires ConfigOk(c)
    ensures var b := BRun(BFresh<T>(c), schedule, maxBlock); Starved(b) ==> b.q.got == b.q.sent
  {
    hide BRun, BFresh, BInv, Starved, Contents;
    EverySchedule(c, schedule, maxBlock);
    var a := RunKeeps(c, schedule, maxBlock);
    var b := BRun(BFresh<T>(c), schedule, maxBlock);
    if Starved(b) { StarvedMeansEmpty(b, a, c); }
  }

  // ------------------------------------------------------------------ progress of the consumer

  function TakeFuel<T>(b: State<T>): nat {
    match b.t
    case TFree => 0
    case TFailed => 0
    case TWaiting(_) => 14 + Sem.WaiterFuel(b.s.waiter)
    case TTaking(_) => ConsumerFuel(b.q.cons)
    case TPeeking => ConsumerFuel(b.q.cons)
  }

  /** A wait_dequeue whose wait was refused starts over (line 878 of readerwriterqueue.h). */
  predicate StartsOver<T>(b: State<T>, k: Sem.Kernel) {
    b.t.TWaiting? && b.t.op.WaitTake? && Sem.WaiterStep(b.s, k).waiter.WIdle? && Sem.WaiterStep(b.s, k).answer.Denied?
  }

  lemma WaitingSpends<T>(b: State<T>, a: Ring, c: Config, k: Sem.Kernel)
    requires BInv(b, a, c) && b.t.TWaiting? && !b.s.signaller.S661? && !Sem.Blocked(b.s, k)
    requires !StartsOver(b, k)
    ensures TakeFuel(ConsumerRun(b, k)) < TakeFuel(b)
  {
    hide Inv, Sem.WaiterFuel, Inside;
    WaiterIsBusy(b);
    Sem.WaiterSpends(b.s, k);
    if Sem.WaiterStep(b.s, k).waiter.WIdle? { Answered(b.s, k); }
    hide Sem.WaiterStep, Sem.Inv, ConsStep;
  }

  lemma WaiterIsBusy<T>(b: State<T>)
    requires Phases(b) && b.t.TWaiting?
    ensures !b.s.waiter.WIdle?
  {
  }

  lemma Answered(s: Sem.Sem, k: Sem.Kernel)
    requires !s.waiter.WIdle? && Sem.WaiterStep(s, k).waiter.WIdle?
    ensures Sem.WaiterStep(s, k).answer.Granted? || Sem.WaiterStep(s, k).answer.Denied?
  {
  }

  lemma TakingSpends<T>(b: State<T>, a: Ring, c: Config, k: Sem.Kernel)
    requires BInv(b, a, c) && (b.t.TTaking? || b.t.TPeeking?)
    ensures TakeFuel(ConsumerRun(b, k)) < TakeFuel(b)
  {
    hide Inv, ConsStep, ConsumerFuel;
    var a' := ConsumerKeeps(b, a, c, k);
    ConsumerProgress(b.q);
  }

  /** Every call of the consumer ends: each of its steps brings its return closer, unless the kernel keeps
      it asleep, a signal is between its increment and its post, or a wait_dequeue tries again after
      finding nothing on offer. */
  lemma TakeEnds<T>(c: Config, schedule: seq<BAction<T>>, maxBlock: nat, k: Sem.Kernel)
    requires ConfigOk(c)
    ensures var b := BRun(BFresh<T>(c), schedule, maxBlock);
      && (b.t.TTaking? || b.t.TPeeking? ==> TakeFuel(ConsumerRun(b, k)) < TakeFuel(b))
      && (b.t.TWaiting? && !b.s.signaller.S661? && !Sem.Blocked(b.s, k) ==>
            TakeFuel(ConsumerRun(b, k)) < TakeFuel(b) || StartsOver(b, k))
  {
    var a := RunKeeps(c, schedule, maxBlock);
    hide *;
    var b := BRun(BFresh<T>(c), schedule, maxBlock);
    if b.t.TTaking? || b.t.TPeeking? { TakingSpends(b, a, c, k); }
    if b.t.TWaiting? && !b.s.signaller.S661? && !Sem.Blocked(b.s, k) && !StartsOver(b, k) { WaitingSpends(b, a, c, k); }
  }
}
