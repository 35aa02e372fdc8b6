/** What one call of the lock-free queue answers, whatever the other thread does meanwhile. */
module SpscCalls {
  import opened Options
  import opened SpscQueue
  import opened SpscQueueProof
  import opened SpscQueueTheorems

  /** The state after the first `k` steps of a schedule. */
  function At<T>(s: Queue<T>, acts: seq<Action<T>>, k: nat, maxBlock: nat): Queue<T>
    requires k <= |acts|
  {
    Run(s, acts[..k], maxBlock)
  }

  lemma AtPrefix<T>(s: Queue<T>, acts: seq<Action<T>>, n: nat, k: nat, maxBlock: nat)
    requires k <= n <= |acts|
    ensures At(s, acts[..n], k, maxBlock) == At(s, acts, k, maxBlock)
  {
    assert acts[..n][..k] == acts[..k];
  }

  lemma {:induction false} RunAppend<T>(q: Queue<T>, s: seq<Action<T>>, t: seq<Action<T>>, maxBlock: nat)
    ensures Run(q, s + t, maxBlock) == Run(Run(q, s, maxBlock), t, maxBlock)
  {
    if t == [] {
      assert s + t == s;
    } else {
      hide Step;
      var n := |t| - 1;
      RunAppend(q, s, t[..n], maxBlock);
      assert (s + t)[..|s + t| - 1] == s + t[..n];
    }
  }

  /** A reachable state that makes a call and goes on is reachable. */
  lemma Reached<T>(c: Config, schedule: seq<Action<T>>, call: Action<T>, acts: seq<Action<T>>, maxBlock: nat)
    ensures Run(Step(Run(FreshQueue<T>(c.count, c.size), schedule, maxBlock), call, maxBlock), acts, maxBlock)
         == Run(FreshQueue<T>(c.count, c.size), schedule + [call] + acts, maxBlock)
  {
    hide FreshQueue, Step;
    var q := FreshQueue<T>(c.count, c.size);
    RunAppend(q, schedule + [call], acts, maxBlock);
    assert (schedule + [call])[..|schedule + [call]| - 1] == schedule;
  }

  lemma NoCrash<T>(c: Config, schedule: seq<Action<T>>, maxBlock: nat)
    requires ConfigOk(c)
    ensures var r := Run(FreshQueue<T>(c.count, c.size), schedule, maxBlock); !r.prod.PCrash? && !r.cons.CCrash?
  {
    hide Run, FreshQueue, Contents;
    EverySchedule<T>(c, schedule, maxBlock);
  }

  // ------------------------------------------------------------------ the producer's calls

  /** At some moment of the producer's call `m` elements were queued. */
  ghost predicate CallSaw<T>(s: Queue<T>, acts: seq<Action<T>>, m: nat, maxBlock: nat) {
    exists k :: 0 <= k < |acts| && !At(s, acts, k, maxBlock).prod.PIdle? && Queued(At(s, acts, k, maxBlock)) == m
  }

  ghost predicate CallSawAtLeast<T>(s: Queue<T>, acts: seq<Action<T>>, m: nat, maxBlock: nat) {
    exists k :: 0 <= k < |acts| && !At(s, acts, k, maxBlock).prod.PIdle? && m <= Queued(At(s, acts, k, maxBlock))
  }

  lemma SawOneMore<T>(s: Queue<T>, acts: seq<Action<T>>, maxBlock: nat)
    requires acts != []
    ensures var n := |acts| - 1; forall m: nat :: CallSaw(s, acts[..n], m, maxBlock) ==> CallSaw(s, acts, m, maxBlock)
    ensures var n := |acts| - 1; forall m: nat :: CallSawAtLeast(s, acts[..n], m, maxBlock) ==> CallSawAtLeast(s, acts, m, maxBlock)
  {
    hide At;
    var n := |acts| - 1;
    forall k | 0 <= k < n ensures At(s, acts[..n], k, maxBlock) == At(s, acts, k, maxBlock) {
      AtPrefix(s, acts, n, k, maxBlock);
    }
  }

  lemma SawNow<T>(s: Queue<T>, acts: seq<Action<T>>, maxBlock: nat)
    requires acts != [] && !Run(s, acts[..|acts| - 1], maxBlock).prod.PIdle?
    ensures var m := Queued(Run(s, acts[..|acts| - 1], maxBlock));
      CallSaw(s, acts, m, maxBlock) && forall m': nat :: m' <= m ==> CallSawAtLeast(s, acts, m', maxBlock)
  {
    assert At(s, acts, |acts| - 1, maxBlock) == Run(s, acts[..|acts| - 1], maxBlock);
  }

  lemma SawEnough<T>(s: Queue<T>, acts: seq<Action<T>>, request: nat, maxBlock: nat)
    ensures forall m: nat :: request <= m && CallSaw(s, acts, m, maxBlock) ==> CallSawAtLeast(s, acts, request, maxBlock)
  {
  }

  function ModeOf<T>(p: Producer<T>): Option<AllocationMode> {
    match p
    case P552(_, mode) => Some(mode)
    case P554(_, mode, _, _) => Some(mode)
    case P557(_, mode, _, _, _) => Some(mode)
    case P572(_, mode, _, _) => Some(mode)
    case P572b(_, mode, _, _, _) => Some(mode)
    case _ => None
  }

  /** The call is past the test of line 572 with no block ahead. */
  predicate Allocating<T>(p: Producer<T>) {
    p.P606? || p.P621? || p.P622? || p.P631?
  }

  /** A call that has not returned: nothing is sent or answered, and the program counter still carries
      the arguments. */
  ghost predicate EnqueueUnderWay<T>(s: Queue<T>, r: Queue<T>, x: T, mode: AllocationMode) {
    && !r.prod.PIdle? && !r.prod.PCrash? && r.prod.x == x
    && r.sent == s.sent && r.prodRet == NotCalled
    && (ModeOf(r.prod).Some? ==> ModeOf(r.prod).value == mode)
    && (Allocating(r.prod) ==> mode == CanAlloc)
  }

  /** A call that has returned: the element is appended, or the caller asked not to allocate and at
      least `request` elements were queued at a moment of this very call. */
  ghost predicate EnqueueAnswered<T>(s: Queue<T>, acts: seq<Action<T>>, x: T, mode: AllocationMode, request: nat, maxBlock: nat) {
    var r := Run(s, acts, maxBlock);
    || (r.prodRet == Accepted && r.sent == s.sent + [x])
    || (r.prodRet.Refused? && mode == CannotAlloc && r.sent == s.sent && request <= r.prodRet.seen
        && CallSaw(s, acts, r.prodRet.seen, maxBlock))
  }

  /** The blocks since the call began. */
  predicate BlocksOf<T>(s: Queue<T>, r: Queue<T>, mode: AllocationMode) {
    || (|r.blocks| == |s.blocks| && !r.prod.P621? && !r.prod.P622? && !r.prod.P631?)
    || (|r.blocks| == |s.blocks| + 1 && mode == CanAlloc && (r.prod.PIdle? || r.prod.P621? || r.prod.P622? || r.prod.P631?))
  }

  ghost predicate Enqueueing<T>(s: Queue<T>, acts: seq<Action<T>>, x: T, mode: AllocationMode, request: nat, maxBlock: nat) {
    var r := Run(s, acts, maxBlock);
    && (if r.prod.PIdle? then EnqueueAnswered(s, acts, x, mode, request, maxBlock) else EnqueueUnderWay(s, r, x, mode))
    && (r.prod.P572? || r.prod.P572b? ==> CallSaw(s, acts, r.prod.seen, maxBlock))
    && (Allocating(r.prod) || |r.blocks| != |s.blocks| ==> CallSawAtLeast(s, acts, request, maxBlock))
    && BlocksOf(s, r, mode)
  }

  lemma ConsumerBlocks<T>(q: Queue<T>)
    ensures |ConsStep(q).blocks| == |q.blocks|
  {
    hide Inc, Queued;
  }

  /** The consumer leaves the call of the producer alone. */
  lemma ConsumerLeaves<T>(q: Queue<T>)
    ensures var r := ConsStep(q); r.prod == q.prod && r.sent == q.sent && r.prodRet == q.prodRet
  {
    hide Inc, Queued;
  }

  lemma OthersLeave<T>(q: Queue<T>, a: Action<T>, maxBlock: nat)
    requires !a.Enqueue? && (a.ProducerRuns? ==> q.prod.PIdle?)
    ensures var r := Step(q, a, maxBlock);
      r.prod == q.prod && r.sent == q.sent && r.prodRet == q.prodRet && |r.blocks| == |q.blocks|
  {
    hide ConsStep;
    if a.ConsumerRuns? {
      ConsumerLeaves(q);
      ConsumerBlocks(q);
    }
  }

  lemma ModeStep<T>(q: Queue<T>, maxBlock: nat)
    requires !q.prod.PIdle?
    ensures var r := ProdStep(q, maxBlock).prod; ModeOf(r).Some? ==> ModeOf(r) == ModeOf(q.prod)
  {
    hide Inc, NewBlock, Queued, Put;
  }

  lemma AllocatesIfAllowed<T>(q: Queue<T>, maxBlock: nat)
    requires q.prod.P572b?
    ensures Allocating(ProdStep(q, maxBlock).prod) ==> q.prod.mode == CanAlloc
  {
  }

  lemma AnswerStep<T>(q: Queue<T>, maxBlock: nat)
    requires !q.prod.PIdle?
    ensures var r := ProdStep(q, maxBlock);
      if r.prod.PIdle? then r.prodRet == Accepted || (r.prodRet.Refused? && ModeOf(q.prod) == Some(CannotAlloc))
      else r.prodRet == q.prodRet
  {
    hide Inc, NewBlock, Queued;
  }

  /** One step of a producer inside a call. */
  lemma UnderWayStep<T>(s: Queue<T>, q: Queue<T>, x: T, mode: AllocationMode, maxBlock: nat)
    requires EnqueueUnderWay(s, q, x, mode)
    ensures var r := ProdStep(q, maxBlock);
      || r.prod.PCrash? || EnqueueUnderWay(s, r, x, mode)
      || (r.prod.PIdle? && r.prodRet == Accepted && r.sent == s.sent + [x])
      || (r.prod.PIdle? && r.prodRet.Refused? && mode == CannotAlloc && r.sent == s.sent)
  {
    hide ProdStep;
    ModeStep(q, maxBlock);
    AllocatesFrom572(q, maxBlock);
    if q.prod.P572b? { AllocatesIfAllowed(q, maxBlock); }
    AnswerStep(q, maxBlock);
    ProducerSends(q, maxBlock);
    ProducerCarries(q, maxBlock);
  }

  lemma BlocksGrow<T>(q: Queue<T>, maxBlock: nat)
    ensures var r := ProdStep(q, maxBlock); r.prod.PCrash? || |r.blocks| == |q.blocks| + if q.prod.P606? then 1 else 0
  {
    hide Inc, NewBlock, Queued;
  }

  /** Lines 606 to 631 follow each other. */
  lemma AllocationOrder<T>(q: Queue<T>, maxBlock: nat)
    ensures var r := ProdStep(q, maxBlock).prod;
      (|| r.PCrash?
       || (&& (r.P621? <==> q.prod.P606?) && (r.P622? <==> q.prod.P621?) && (r.P631? <==> q.prod.P622?)
           && (q.prod.P631? ==> r.PIdle?)))
  {
    hide Inc, NewBlock, Queued;
  }

  lemma BlocksStep<T>(s: Queue<T>, q: Queue<T>, mode: AllocationMode, maxBlock: nat)
    requires BlocksOf(s, q, mode) && !q.prod.PIdle? && (Allocating(q.prod) ==> mode == CanAlloc)
    ensures var r := ProdStep(q, maxBlock);
      r.prod.PCrash? || (BlocksOf(s, r, mode) && (|r.blocks| != |s.blocks| ==> Allocating(q.prod)))
  {
    hide ProdStep;
    BlocksGrow(q, maxBlock);
    AllocationOrder(q, maxBlock);
  }

  /** Where `seen` comes from: the load of line 557, or the present moment. */
  lemma SeenStep<T>(q: Queue<T>, maxBlock: nat)
    requires !q.prod.PIdle?
    ensures var r := ProdStep(q, maxBlock).prod;
      r.P572? || r.P572b? ==> r.seen == Queued(q) || ((q.prod.P572? || q.prod.P572b?) && r.seen == q.prod.seen)
  {
    hide Inc, NewBlock, Queued, Put;
  }

  lemma AllocatesFrom572<T>(q: Queue<T>, maxBlock: nat)
    requires !q.prod.PIdle?
    ensures var r := ProdStep(q, maxBlock).prod; Allocating(r) ==> Allocating(q.prod) || (q.prod.P572b? && !r.P581?)
  {
    hide Inc, NewBlock, Queued, Put;
  }

  lemma RefusedStep<T>(q: Queue<T>, maxBlock: nat)
    requires !q.prod.PIdle? && !q.prodRet.Refused?
    ensures var r := ProdStep(q, maxBlock);
      r.prodRet.Refused? ==>
        && q.prod.P572b? && r.prod.PIdle?
        && (r.prodRet.seen == Queued(q) >= q.prod.seen || r.prodRet.seen == q.prod.seen >= Queued(q))
  {
    hide Inc, NewBlock, Queued;
  }

  lemma BlocksSame<T>(s: Queue<T>, q: Queue<T>, r: Queue<T>, mode: AllocationMode)
    requires BlocksOf(s, q, mode) && r.prod == q.prod && |r.blocks| == |q.blocks|
    ensures BlocksOf(s, r, mode)
  {
  }

  lemma CallGoesOn<T>(s: Queue<T>, acts: seq<Action<T>>, x: T, mode: AllocationMode, request: nat, maxBlock: nat)
    requires acts != [] && !acts[|acts| - 1].Enqueue?
    requires Enqueueing(s, acts[..|acts| - 1], x, mode, request, maxBlock)
    requires var q := Run(s, acts[..|acts| - 1], maxBlock);
      q.prod.P572b? && !ProdStep(q, maxBlock).prod.P581? ==> request <= q.prod.seen || request <= Queued(q)
    requires !Run(s, acts, maxBlock).prod.PCrash?
    ensures Enqueueing(s, acts, x, mode, request, maxBlock)
  {
    hide ProdStep, ConsStep, Queued, CallSaw, CallSawAtLeast, BlocksOf;
    SawOneMore(s, acts, maxBlock);
    var q, a := Run(s, acts[..|acts| - 1], maxBlock), acts[|acts| - 1];
    if q.prod.PIdle? || !a.ProducerRuns? {
      OthersLeave(q, a, maxBlock);
      BlocksSame(s, q, Run(s, acts, maxBlock), mode);
    } else {
      UnderWayStep(s, q, x, mode, maxBlock);
      BlocksStep(s, q, mode, maxBlock);
      SeenStep(q, maxBlock);
      AllocatesFrom572(q, maxBlock);
      RefusedStep(q, maxBlock);
      SawNow(s, acts, maxBlock);
      SawEnough(s, acts, request, maxBlock);
    }
  }

  /** Every schedule after the call, as long as the producer makes no other. */
  lemma {:induction false} CallInv<T>(c: Config, schedule: seq<Action<T>>, x: T, mode: AllocationMode, acts: seq<Action<T>>, maxBlock: nat)
    requires ConfigOk(c)
    requires Run(FreshQueue<T>(c.count, c.size), schedule, maxBlock).prod.PIdle?
    requires forall i :: 0 <= i < |acts| ==> !acts[i].Enqueue?
    ensures Enqueueing(StartEnqueue(Run(FreshQueue<T>(c.count, c.size), schedule, maxBlock), x, mode), acts, x, mode, c.request, maxBlock)
  {
    hide FreshQueue, Enqueueing;
    var q := Run(FreshQueue<T>(c.count, c.size), schedule, maxBlock);
    var s := StartEnqueue(q, x, mode);
    assert s == Step(q, Enqueue(x, mode), maxBlock);
    if acts == [] {
      assert Enqueueing(s, [], x, mode, c.request, maxBlock) by { CallBegins(q, x, mode, c.request, maxBlock); }
    } else {
      var n := |acts| - 1;
      CallInv(c, schedule, x, mode, acts[..n], maxBlock);
      hide Step, StartEnqueue, Run, ProdStep;
      Reached(c, schedule, Enqueue(x, mode), acts, maxBlock);
      Reached(c, schedule, Enqueue(x, mode), acts[..n], maxBlock);
      NoCrash<T>(c, schedule + [Enqueue(x, mode)] + acts, maxBlock);
      if Run(s, acts[..n], maxBlock).prod.P572b? {
        AllocatesOnlyWhenFull<T>(c, schedule + [Enqueue(x, mode)] + acts[..n], maxBlock);
      }
      CallGoesOn(s, acts, x, mode, c.request, maxBlock);
    }
  }

  lemma CallBegins<T>(q: Queue<T>, x: T, mode: AllocationMode, request: nat, maxBlock: nat)
    ensures Enqueueing(StartEnqueue(q, x, mode), [], x, mode, request, maxBlock)
  {
  }

  /** One call of enqueue (552-643), begun in any reachable state and followed by any schedule in which
      the producer makes no other call: while it runs nothing is appended; when it has returned its
      element is the newest one, or it was not to allocate and found, at a moment of this same call, at
      least the requested number of elements queued; and only an allocating call adds a block, at most
      one, after that same moment. */
  lemma EnqueueOutcome<T>(c: Config, schedule: seq<Action<T>>, x: T, mode: AllocationMode, acts: seq<Action<T>>, maxBlock: nat)
    requires ConfigOk(c)
    requires Run(FreshQueue<T>(c.count, c.size), schedule, maxBlock).prod.PIdle?
    requires forall i :: 0 <= i < |acts| ==> !acts[i].Enqueue?
    ensures var q := Run(FreshQueue<T>(c.count, c.size), schedule, maxBlock);
      var s := Step(q, Enqueue(x, mode), maxBlock);
      var r := Run(s, acts, maxBlock);
      && (!r.prod.PIdle? ==> r.sent == q.sent && r.prodRet == NotCalled)
      && (r.prod.PIdle? ==> r.prodRet.Accepted? || r.prodRet.Refused?)
      && (r.prodRet.Accepted? ==> r.sent == q.sent + [x])
      && (r.prodRet.Refused? ==>
            && mode == CannotAlloc && r.sent == q.sent
            && c.request <= r.prodRet.seen && CallSaw(s, acts, r.prodRet.seen, maxBlock))
      && (|r.blocks| == |q.blocks|
          || (|r.blocks| == |q.blocks| + 1 && mode == CanAlloc && CallSawAtLeast(s, acts, c.request, maxBlock)))
  {
    hide FreshQueue, Run, CallSaw, CallSawAtLeast;
    CallInv(c, schedule, x, mode, acts, maxBlock);
  }

  /** An enqueue with fewer than the requested number queued at each moment of its own call is accepted
      and adds no block, in both modes. */
  lemma EnqueueFits<T>(c: Config, schedule: seq<Action<T>>, x: T, mode: AllocationMode, acts: seq<Action<T>>, maxBlock: nat)
    requires ConfigOk(c)
    requires Run(FreshQueue<T>(c.count, c.size), schedule, maxBlock).prod.PIdle?
    requires forall i :: 0 <= i < |acts| ==> !acts[i].Enqueue?
    requires var s := Step(Run(FreshQueue<T>(c.count, c.size), schedule, maxBlock), Enqueue(x, mode), maxBlock);
      forall k :: 0 <= k < |acts| && !At(s, acts, k, maxBlock).prod.PIdle? ==> Queued(At(s, acts, k, maxBlock)) < c.request
    ensures var q := Run(FreshQueue<T>(c.count, c.size), schedule, maxBlock);
      var r := Run(Step(q, Enqueue(x, mode), maxBlock), acts, maxBlock);
      |r.blocks| == |q.blocks| && (r.prod.PIdle? ==> r.prodRet.Accepted? && r.sent == q.sent + [x])
  {
    hide FreshQueue, Run, At, Step, Queued;
    EnqueueOutcome(c, schedule, x, mode, acts, maxBlock);
  }

  function ProducerTurns<T>(acts: seq<Action<T>>): (n: nat)
    ensures n <= |acts|
  {
    if acts == [] then 0
    else ProducerTurns(acts[..|acts| - 1]) + if acts[|acts| - 1].ProducerRuns? then 1 else 0
  }

  /** A call has returned after at most 12 steps of its thread, whatever happens in between. */
  lemma {:induction false} EnqueueReturns<T>(s: Queue<T>, acts: seq<Action<T>>, maxBlock: nat)
    requires forall i :: 0 <= i < |acts| ==> !acts[i].Enqueue?
    requires !Run(s, acts, maxBlock).prod.PIdle? && !Run(s, acts, maxBlock).prod.PCrash? && ProducerFuel(s.prod) <= 12
    ensures ProducerTurns(acts) + ProducerFuel(Run(s, acts, maxBlock).prod) <= 12
  {
    if acts != [] {
      hide ProducerFuel, ProdStep, ConsStep;
      var n := |acts| - 1;
      var q := Run(s, acts[..n], maxBlock);
      if !acts[n].ProducerRuns? { OthersLeave(q, acts[n], maxBlock); }
      IdleOrCrashed(q, maxBlock);
      EnqueueReturns(s, acts[..n], maxBlock);
      if acts[n].ProducerRuns? { ProducerProgress(q, maxBlock); }
    }
  }

  lemma IdleOrCrashed<T>(q: Queue<T>, maxBlock: nat)
    ensures q.prod.PIdle? || q.prod.PCrash? ==> ProdStep(q, maxBlock) == q
  {
  }

  lemma {:induction false} AloneSees<T>(c: Config, schedule: seq<Action<T>>, x: T, mode: AllocationMode, acts: seq<Action<T>>, maxBlock: nat)
    requires ConfigOk(c)
    requires Run(FreshQueue<T>(c.count, c.size), schedule, maxBlock).prod.PIdle?
    requires forall i :: 0 <= i < |acts| ==> acts[i].ProducerRuns?
    ensures var q := Run(FreshQueue<T>(c.count, c.size), schedule, maxBlock);
      var r := Run(Step(q, Enqueue(x, mode), maxBlock), acts, maxBlock);
      && r.got == q.got && (!r.prod.PIdle? ==> r.sent == q.sent)
      && ProducerTurns(acts) == |acts| && !r.prod.PCrash?
  {
    hide FreshQueue, ProdStep, CallSaw, CallSawAtLeast;
    EnqueueOutcome(c, schedule, x, mode, acts, maxBlock);
    var s := Step(Run(FreshQueue<T>(c.count, c.size), schedule, maxBlock), Enqueue(x, mode), maxBlock);
    Reached(c, schedule, Enqueue(x, mode), acts, maxBlock);
    NoCrash<T>(c, schedule + [Enqueue(x, mode)] + acts, maxBlock);
    if acts != [] {
      AloneSees(c, schedule, x, mode, acts[..|acts| - 1], maxBlock);
      ProducerLeaves(Run(s, acts[..|acts| - 1], maxBlock), maxBlock);
    }
  }

  /** An enqueue that runs alone, with fewer than the requested number queued, is accepted within twelve
      steps; so no earlier refusal stands in its way. */
  lemma EnqueueAlone<T>(c: Config, schedule: seq<Action<T>>, x: T, mode: AllocationMode, acts: seq<Action<T>>, maxBlock: nat)
    requires ConfigOk(c)
    requires Run(FreshQueue<T>(c.count, c.size), schedule, maxBlock).prod.PIdle?
    requires Queued(Run(FreshQueue<T>(c.count, c.size), schedule, maxBlock)) < c.request
    requires |acts| >= 12 && forall i :: 0 <= i < |acts| ==> acts[i].ProducerRuns?
    ensures var q := Run(FreshQueue<T>(c.count, c.size), schedule, maxBlock);
      var r := Run(Step(q, Enqueue(x, mode), maxBlock), acts, maxBlock);
      r.prod.PIdle? && r.prodRet.Accepted? && r.sent == q.sent + [x] && r.got == q.got && |r.blocks| == |q.blocks|
  {
    hide FreshQueue, Run, ProdStep;
    var s := Step(Run(FreshQueue<T>(c.count, c.size), schedule, maxBlock), Enqueue(x, mode), maxBlock);
    forall k | 0 <= k < |acts| && !At(s, acts, k, maxBlock).prod.PIdle? ensures Queued(At(s, acts, k, maxBlock)) < c.request {
      AloneSees(c, schedule, x, mode, acts[..k], maxBlock);
    }
    EnqueueFits(c, schedule, x, mode, acts, maxBlock);
    AloneSees(c, schedule, x, mode, acts, maxBlock);
    if !Run(s, acts, maxBlock).prod.PIdle? {
      EnqueueReturns(s, acts, maxBlock);
      StillRunning(Run(s, acts, maxBlock).prod);
    }
  }

  lemma StillRunning<T>(p: Producer<T>)
    requires !p.PIdle? && !p.PCrash?
    ensures ProducerFuel(p) >= 1
  {
  }

  // ------------------------------------------------------------------ the consumer's calls

  /** At some moment of the consumer's call nothing was queued. */
  ghost predicate CallSawEmpty<T>(s: Queue<T>, acts: seq<Action<T>>, maxBlock: nat) {
    exists k :: 0 <= k < |acts| && !At(s, acts, k, maxBlock).cons.CIdle? && Queued(At(s, acts, k, maxBlock)) == 0
  }

  lemma EmptyOneMore<T>(s: Queue<T>, acts: seq<Action<T>>, maxBlock: nat)
    requires acts != []
    requires CallSawEmpty(s, acts[..|acts| - 1], maxBlock)
             || (!Run(s, acts[..|acts| - 1], maxBlock).cons.CIdle? && Queued(Run(s, acts[..|acts| - 1], maxBlock)) == 0)
    ensures CallSawEmpty(s, acts, maxBlock)
  {
    var n := |acts| - 1;
    assert At(s, acts, n, maxBlock) == Run(s, acts[..n], maxBlock);
    hide At, Queued;
    forall k | 0 <= k < n ensures At(s, acts[..n], k, maxBlock) == At(s, acts, k, maxBlock) {
      AtPrefix(s, acts, n, k, maxBlock);
    }
  }

  /** A consumer inside a call to `op`. */
  predicate Serves<T>(k: Consumer<T>, op: ConsumerOp) {
    match k
    case CIdle => false
    case CCrash => false
    case C308(o) => o == op
    case C310(o, _) => o == op
    case C312(o, _, _) => o == op
    case C317(o, _, _) => o == op
    case C324(_, _, _) => op != Peek
    case C326(o, _, _) => o == op
    case C329(o) => o == op
    case C330(o, _) => o == op
    case C331(o, _, _) => o == op
    case C340(o, _) => o == op
    case C345(o, _) => o == op
    case C346(o, _, _) => o == op
    case C356(o, _, _) => o == op && op != Peek
    case C417(_, _) => op == Peek
  }

  ghost predicate DequeueUnderWay<T>(s: Queue<T>, acts: seq<Action<T>>, op: ConsumerOp, maxBlock: nat) {
    var r := Run(s, acts, maxBlock);
    && Serves(r.cons, op) && r.got == s.got && r.consRet == NoCall
    && (r.cons.C326? && r.cons.sawEmpty ==> CallSawEmpty(s, acts, maxBlock))
  }

  ghost predicate DequeueAnswered<T>(s: Queue<T>, acts: seq<Action<T>>, op: ConsumerOp, maxBlock: nat) {
    var r := Run(s, acts, maxBlock);
    match r.consRet
    case NoCall => false
    case Took(v) => op != Peek && r.got == s.got + [v]
    case Peeked(v) => op == Peek && r.got == s.got
    case Empty(sawEmpty) => r.got == s.got && (sawEmpty ==> CallSawEmpty(s, acts, maxBlock))
  }

  ghost predicate Dequeueing<T>(s: Queue<T>, acts: seq<Action<T>>, op: ConsumerOp, maxBlock: nat) {
    if Run(s, acts, maxBlock).cons.CIdle? then DequeueAnswered(s, acts, op, maxBlock) else DequeueUnderWay(s, acts, op, maxBlock)
  }

  lemma OthersLeaveConsumer<T>(q: Queue<T>, a: Action<T>, maxBlock: nat)
    requires !a.Dequeue? && (a.ConsumerRuns? ==> q.cons.CIdle?)
    ensures var r := Step(q, a, maxBlock); r.cons == q.cons && r.got == q.got && r.consRet == q.consRet
  {
    hide ProdStep;
    if a.ProducerRuns? { ProducerLeaves(q, maxBlock); }
  }

  lemma ServesStep<T>(q: Queue<T>, op: ConsumerOp)
    requires Serves(q.cons, op)
    ensures var r := ConsStep(q);
      r.cons.CIdle? || r.cons.CCrash? || (Serves(r.cons, op) && (r.cons.C326? ==> r.cons.sawEmpty == (Queued(q) == 0)))
  {
    hide Queued, Inc, Put;
  }

  lemma NoAnswerYet<T>(q: Queue<T>)
    ensures var r := ConsStep(q); !r.cons.CIdle? ==> r.got == q.got && r.consRet == q.consRet
  {
    hide Queued, Inc;
  }

  lemma DequeueReturnsWith<T>(q: Queue<T>, op: ConsumerOp)
    requires Serves(q.cons, op) && ConsStep(q).cons.CIdle?
    ensures var r := ConsStep(q);
      match r.consRet
      case NoCall => false
      case Took(v) => op != Peek && r.got == q.got + [v]
      case Peeked(v) => op == Peek && r.got == q.got
      case Empty(sawEmpty) => r.got == q.got && q.cons.C326? && q.cons.sawEmpty == sawEmpty
  {
    hide Queued, Inc;
  }

  lemma DequeueAnswer<T>(q: Queue<T>, op: ConsumerOp)
    requires Serves(q.cons, op)
    ensures var r := ConsStep(q);
      if !r.cons.CIdle? then r.got == q.got && r.consRet == q.consRet else
      match r.consRet
      case NoCall => false
      case Took(v) => op != Peek && r.got == q.got + [v]
      case Peeked(v) => op == Peek && r.got == q.got
      case Empty(sawEmpty) => r.got == q.got && q.cons.C326? && q.cons.sawEmpty == sawEmpty
  {
    hide ConsStep, Serves;
    NoAnswerYet(q);
    if ConsStep(q).cons.CIdle? { DequeueReturnsWith(q, op); }
  }

  lemma DequeueGoesOn<T>(s: Queue<T>, acts: seq<Action<T>>, op: ConsumerOp, maxBlock: nat)
    requires acts != [] && !acts[|acts| - 1].Dequeue?
    requires Dequeueing(s, acts[..|acts| - 1], op, maxBlock)
    requires !Run(s, acts, maxBlock).cons.CCrash?
    ensures Dequeueing(s, acts, op, maxBlock)
  {
    hide ProdStep, ConsStep, Queued, CallSawEmpty, Serves;
    var q, a := Run(s, acts[..|acts| - 1], maxBlock), acts[|acts| - 1];
    if CallSawEmpty(s, acts[..|acts| - 1], maxBlock) || (!q.cons.CIdle? && Queued(q) == 0) { EmptyOneMore(s, acts, maxBlock); }
    if q.cons.CIdle? || !a.ConsumerRuns? {
      OthersLeaveConsumer(q, a, maxBlock);
    } else {
      ServesStep(q, op);
      DequeueAnswer(q, op);
      ServesBusy(Run(s, acts, maxBlock).cons, op);
    }
  }

  lemma ServesBusy<T>(k: Consumer<T>, op: ConsumerOp)
    ensures Serves(k, op) ==> !k.CIdle?
  {
  }

  lemma {:induction false} DequeueInv<T>(c: Config, schedule: seq<Action<T>>, op: ConsumerOp, acts: seq<Action<T>>, maxBlock: nat)
    requires ConfigOk(c)
    requires Run(FreshQueue<T>(c.count, c.size), schedule, maxBlock).cons.CIdle?
    requires forall i :: 0 <= i < |acts| ==> !acts[i].Dequeue?
    ensures Dequeueing(StartDequeue(Run(FreshQueue<T>(c.count, c.size), schedule, maxBlock), op), acts, op, maxBlock)
  {
    hide FreshQueue, ConsStep, Dequeueing;
    var q := Run(FreshQueue<T>(c.count, c.size), schedule, maxBlock);
    var s := StartDequeue(q, op);
    assert s == Step(q, Dequeue(op), maxBlock);
    if acts == [] {
      DequeueBegins(q, op, maxBlock);
    } else {
      var n := |acts| - 1;
      DequeueInv(c, schedule, op, acts[..n], maxBlock);
      hide Step, StartDequeue, Run;
      Reached(c, schedule, Dequeue(op), acts, maxBlock);
      NoCrash<T>(c, schedule + [Dequeue(op)] + acts, maxBlock);
      DequeueGoesOn(s, acts, op, maxBlock);
    }
  }

  lemma DequeueBegins<T>(q: Queue<T>, op: ConsumerOp, maxBlock: nat)
    ensures Dequeueing(StartDequeue(q, op), [], op, maxBlock)
  {
  }

  /** One call of try_dequeue, pop or peek, begun in any reachable state and followed by any schedule in
      which the consumer makes no other call: while it runs nothing counts as delivered; when it has
      returned it delivered the oldest element, or, for a peek, named it and left it, or answers that
      the queue is empty, and then it was so at a moment of this same call. */
  lemma DequeueOutcome<T>(c: Config, schedule: seq<Action<T>>, op: ConsumerOp, acts: seq<Action<T>>, maxBlock: nat)
    requires ConfigOk(c)
    requires Run(FreshQueue<T>(c.count, c.size), schedule, maxBlock).cons.CIdle?
    requires forall i :: 0 <= i < |acts| ==> !acts[i].Dequeue?
    ensures var q := Run(FreshQueue<T>(c.count, c.size), schedule, maxBlock);
      var s := Step(q, Dequeue(op), maxBlock);
      var r := Run(s, acts, maxBlock);
      if !r.cons.CIdle? then r.got == q.got && r.consRet == NoCall else
      match r.consRet
      case NoCall => false
      case Took(v) => op != Peek && |q.got| < |r.sent| && v == r.sent[|q.got|] && r.got == q.got + [v]
      case Peeked(v) => op == Peek && |q.got| < |r.sent| && v == r.sent[|q.got|] && r.got == q.got
      case Empty(_) => r.got == q.got && CallSawEmpty(s, acts, maxBlock)
  {
    hide FreshQueue, Run, CallSawEmpty, Contents;
    DequeueInv(c, schedule, op, acts, maxBlock);
    Reached(c, schedule, Dequeue(op), acts, maxBlock);
    EverySchedule<T>(c, schedule + [Dequeue(op)] + acts, maxBlock);
  }

  function ConsumerTurns<T>(acts: seq<Action<T>>): (n: nat)
    ensures n <= |acts|
  {
    if acts == [] then 0
    else ConsumerTurns(acts[..|acts| - 1]) + if acts[|acts| - 1].ConsumerRuns? then 1 else 0
  }

  /** A call has returned after at most 13 steps of its thread, whatever happens in between. */
  lemma {:induction false} DequeueReturns<T>(s: Queue<T>, acts: seq<Action<T>>, maxBlock: nat)
    requires forall i :: 0 <= i < |acts| ==> !acts[i].Dequeue?
    requires !Run(s, acts, maxBlock).cons.CIdle? && !Run(s, acts, maxBlock).cons.CCrash? && ConsumerFuel(s.cons) <= 13
    ensures ConsumerTurns(acts) + ConsumerFuel(Run(s, acts, maxBlock).cons) <= 13
  {
    if acts != [] {
      hide ConsumerFuel, ProdStep, ConsStep;
      var n := |acts| - 1;
      var q := Run(s, acts[..n], maxBlock);
      if !acts[n].ConsumerRuns? { OthersLeaveConsumer(q, acts[n], maxBlock); }
      ConsumerStays(q);
      DequeueReturns(s, acts[..n], maxBlock);
      if acts[n].ConsumerRuns? { ConsumerProgress(q); }
    }
  }

  lemma ConsumerStays<T>(q: Queue<T>)
    ensures q.cons.CIdle? || q.cons.CCrash? ==> ConsStep(q) == q
  {
  }

  lemma ConsumerBusy<T>(k: Consumer<T>)
    requires !k.CIdle? && !k.CCrash?
    ensures ConsumerFuel(k) >= 1
  {
  }

  /** With an element queued at each moment of the call a dequeue, pop or peek delivers or names the oldest;
      thirteen steps of its thread are enough. */
  lemma DequeueFinds<T>(c: Config, schedule: seq<Action<T>>, op: ConsumerOp, acts: seq<Action<T>>, maxBlock: nat)
    requires ConfigOk(c)
    requires var q := Run(FreshQueue<T>(c.count, c.size), schedule, maxBlock); q.cons.CIdle? && |q.got| < |q.sent|
    requires forall i :: 0 <= i < |acts| ==> !acts[i].Dequeue?
    requires ConsumerTurns(acts) >= 13
    ensures var q := Run(FreshQueue<T>(c.count, c.size), schedule, maxBlock);
      var r := Run(Step(q, Dequeue(op), maxBlock), acts, maxBlock);
      && r.cons.CIdle?
      && r.consRet == (if op == Peek then Peeked(q.sent[|q.got|]) else Took(q.sent[|q.got|]))
      && r.got == if op == Peek then q.got else q.got + [q.sent[|q.got|]]
  {
    hide FreshQueue, Run, ConsStep, ProdStep, Contents;
    var q := Run(FreshQueue<T>(c.count, c.size), schedule, maxBlock);
    var s := Step(q, Dequeue(op), maxBlock);
    DequeueOutcome(c, schedule, op, acts, maxBlock);
    Reached(c, schedule, Dequeue(op), acts, maxBlock);
    EverySchedule<T>(c, schedule + [Dequeue(op)] + acts, maxBlock);
    var r := Run(s, acts, maxBlock);
    if !r.cons.CIdle? {
      DequeueReturns(s, acts, maxBlock);
      ConsumerBusy(r.cons);
    }
    SentGrows(s, acts, maxBlock);
    forall k | 0 <= k < |acts| && !At(s, acts, k, maxBlock).cons.CIdle? ensures Queued(At(s, acts, k, maxBlock)) != 0 {
      DequeueOutcome(c, schedule, op, acts[..k], maxBlock);
      SentGrows(s, acts[..k], maxBlock);
    }
  }

  lemma {:induction false} SentGrows<T>(s: Queue<T>, acts: seq<Action<T>>, maxBlock: nat)
    ensures s.sent <= Run(s, acts, maxBlock).sent
  {
    if acts != [] {
      hide ProdStep, ConsStep;
      var q := Run(s, acts[..|acts| - 1], maxBlock);
      SentGrows(s, acts[..|acts| - 1], maxBlock);
      ConsumerLeaves(q);
      IdleOrCrashed(q, maxBlock);
      if !q.prod.PIdle? && !q.prod.PCrash? { ProducerSends(q, maxBlock); }
    }
  }
}
