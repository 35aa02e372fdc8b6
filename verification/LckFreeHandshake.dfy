/** The two threads of src/app/mq_test.cc (lines 41-81) over LckFreeMQ
    (include/message_queue/lck_free_mq.h): RunTh1 pushes all items and then sets `_done`; RunTh2 pops
    until it has seen `_done` and then an empty queue. */
module LckFreeHandshake {
  import opened SpscQueue
  import opened SpscQueueProof
  import opened SpscQueueTheorems
  import SpscCalls

  /** TPush: inside Push(items[next]), lines 72-77 of lck_free_mq.h; TSet: about to store `_done`. */
  datatype Th1 = TTop | TPush | TSet | TEnd

  /** The points of the main loop of RunTh2; `last` is `job_done_flag`. */
  datatype Th2 = UTop(last: bool) | UEmpty(last: bool) | UCall(last: bool) | UPop(last: bool) | UEnd

  datatype State<T> = State(q: Queue<T>, done: bool, next: nat, th1: Th1, th2: Th2)

  function Th1Step<T>(s: State<T>, items: seq<T>, maxBlock: nat): State<T> {
    match s.th1
    case TTop =>
      if s.next < |items| then s.(q := StartEnqueue(s.q, items[s.next], CannotAlloc), th1 := TPush)
      else s.(th1 := TSet)
    case TPush =>
      var q := ProdStep(s.q, maxBlock);
      if !q.prod.PIdle? then s.(q := q)
      else if q.prodRet.Accepted? then s.(q := q, next := s.next + 1, th1 := TTop)
      else s.(q := q, th1 := TTop)                              // the spin loop tries again
    case TSet => s.(done := true, th1 := TEnd)
    case TEnd => s
  }

  /** IsEmpty runs only once `_done` is set.  RunTh1 has then ended, so no other thread moves while
      size_approx walks the blocks and the walk is one step. */
  function Th2Step<T>(s: State<T>): State<T> {
    match s.th2
    case UTop(last) => s.(th2 := if s.done then UEmpty(last) else UCall(last))
    case UEmpty(last) => s.(th2 := UCall(last || SizeApprox(s.q) == 0))
    case UCall(last) => s.(q := StartDequeue(s.q, TryDequeue), th2 := UPop(last))
    case UPop(last) =>
      var q := ConsStep(s.q);
      s.(q := q, th2 := if !q.cons.CIdle? then UPop(last) else if last then UEnd else UTop(false))
    case UEnd => s
  }

  /** `true` lets RunTh1 run to its next shared access, `false` RunTh2. */
  function Run<T>(s: State<T>, schedule: seq<bool>, items: seq<T>, maxBlock: nat): State<T> {
    if schedule == [] then s else
    var before := Run(s, schedule[..|schedule| - 1], items, maxBlock);
    if schedule[|schedule| - 1] then Th1Step(before, items, maxBlock) else Th2Step(before)
  }

  function Fresh<T>(c: Config): State<T> {
    State(FreshQueue(c.count, c.size), false, 0, TTop, UTop(false))
  }

  ghost predicate Progress<T>(s: State<T>, items: seq<T>) {
    && s.next <= |items| && s.q.sent == items[..s.next]
    && (match s.th1
        case TTop => s.q.prod.PIdle? && !s.done
        case TPush => !s.q.prod.PIdle? && !s.done && s.next < |items| && Pushing(s.q.prod, items[s.next])
        case TSet => s.q.prod.PIdle? && !s.done && s.next == |items|
        case TEnd => s.q.prod.PIdle? && s.done && s.next == |items|)
    && (match s.th2
        case UTop(last) => s.q.cons.CIdle? && !last
        case UEmpty(last) => s.q.cons.CIdle? && s.done && !last
        case UCall(last) => s.q.cons.CIdle? && (last ==> s.done && s.q.got == s.q.sent)
        case UPop(last) => SpscCalls.Serves(s.q.cons, TryDequeue) && (last ==> s.done && s.q.got == s.q.sent)
        case UEnd => s.done && s.q.got == s.q.sent)
  }

  /** The element being pushed is `x`. */
  ghost predicate Pushing<T>(p: Producer<T>, x: T) {
    p.PIdle? || p.PCrash? || p.x == x
  }

  lemma PushStep<T>(q: Queue<T>, x: T, maxBlock: nat)
    requires !q.prod.PIdle? && !q.prod.PCrash? && Pushing(q.prod, x)
    ensures var q' := ProdStep(q, maxBlock);
      && Pushing(q'.prod, x) && q'.got == q.got && q'.cons == q.cons
      && q'.sent == (if q'.prod.PIdle? && q'.prodRet.Accepted? then q.sent + [x] else q.sent)
  {
    hide ProdStep;
    ProducerLeaves(q, maxBlock);
    ProducerSends(q, maxBlock);
    ProducerCarries(q, maxBlock);
  }

  lemma PopDelivers<T>(q: Queue<T>)
    ensures var q' := ConsStep(q); q'.got == q.got || (q.cons.C324? && q'.got == q.got + [q.cons.v])
  {
    hide Inc, Queued;
  }

  lemma PopStep<T>(q: Queue<T>)
    ensures var q' := ConsStep(q);
      && q'.sent == q.sent && q'.prod == q.prod
      && (q'.got == q.got || (q.cons.C324? && q'.got == q.got + [q.cons.v]))
  {
    hide ConsStep;
    PopDelivers(q);
    SpscCalls.ConsumerLeaves(q);
  }

  lemma CallServes<T>(q: Queue<T>)
    ensures SpscCalls.Serves(StartDequeue(q, TryDequeue).cons, TryDequeue)
  {
  }

  lemma InvFacts<T>(q: Queue<T>, a: Ring, c: Config)
    requires Inv(q, a, c)
    ensures q.got <= q.sent && (q.cons.C324? ==> |q.got| < |q.sent|)
    ensures !q.prod.PCrash? && !q.cons.CCrash?
  {
    InvCorrect(q, a, c);
    hide Contents, Inv;
  }

  lemma Th1Keeps<T>(s: State<T>, items: seq<T>, a: Ring, c: Config, maxBlock: nat) returns (a': Ring)
    requires Inv(s.q, a, c) && Progress(s, items)
    ensures Inv(Th1Step(s, items, maxBlock).q, a', c) && Progress(Th1Step(s, items, maxBlock), items)
  {
    hide Inv, ProdStep, Pushing;
    InvFacts(s.q, a, c);
    a' := a;
    match s.th1
    case TTop =>
      if s.next < |items| {
        CallEnqueue(s.q, a, c, items[s.next], CannotAlloc);
        assert Pushing(P552(items[s.next], CannotAlloc), items[s.next]) by { PushingStart(items[s.next]); }
      }
    case TPush =>
      a' := ProducerKeeps(s.q, a, c, maxBlock);
      PushStep(s.q, items[s.next], maxBlock);
      InvFacts(ProdStep(s.q, maxBlock), a', c);
    case TSet =>
    case TEnd =>
  }

  lemma PushingStart<T>(x: T)
    ensures Pushing(P552(x, CannotAlloc), x)
  {
  }

  lemma Th2Keeps<T>(s: State<T>, items: seq<T>, a: Ring, c: Config) returns (a': Ring)
    requires Inv(s.q, a, c) && Progress(s, items)
    ensures Inv(Th2Step(s).q, a', c) && Progress(Th2Step(s), items)
  {
    hide Inv, ConsStep, Pushing, SizeApprox, SpscCalls.Serves;
    InvFacts(s.q, a, c);
    a' := a;
    match s.th2
    case UTop(_) =>
    case UEmpty(_) =>
      SizeIsQueued(s.q, a, c);
    case UCall(_) =>
      CallDequeue(s.q, a, c, TryDequeue);
      CallServes(s.q);
    case UPop(_) =>
      a' := ConsumerKeeps(s.q, a, c);
      InvFacts(ConsStep(s.q), a', c);
      PopStep(s.q);
      SpscCalls.ServesStep(s.q, TryDequeue);
    case UEnd =>
  }

  lemma {:induction false} RunKeeps<T>(c: Config, schedule: seq<bool>, items: seq<T>, maxBlock: nat) returns (a: Ring)
    requires ConfigOk(c)
    ensures var s := Run(Fresh<T>(c), schedule, items, maxBlock); Inv(s.q, a, c) && Progress(s, items)
  {
    hide Inv, Th1Step, Th2Step, FreshQueue, FreshRing, Progress;
    if schedule == [] {
      FreshInv<T>(c);
      FreshProgress(c, items);
      a := FreshRing(c.count);
    } else {
      var n := |schedule| - 1;
      a := RunKeeps(c, schedule[..n], items, maxBlock);
      var s := Run(Fresh<T>(c), schedule[..n], items, maxBlock);
      if schedule[n] {
        a := Th1Keeps(s, items, a, c, maxBlock);
      } else {
        a := Th2Keeps(s, items, a, c);
      }
    }
  }

  lemma FreshProgress<T>(c: Config, items: seq<T>)
    ensures Progress(Fresh<T>(c), items)
  {
    assert items[..0] == [];
  }

  /** Whatever the interleaving: at every moment the consumer has a prefix of the items, and when its
      loop exits it has received every item exactly once and in order. */
  lemma ReceivesAll<T>(c: Config, schedule: seq<bool>, items: seq<T>, maxBlock: nat)
    requires ConfigOk(c)
    ensures var s := Run(Fresh<T>(c), schedule, items, maxBlock);
      && !s.q.prod.PCrash? && !s.q.cons.CCrash?
      && s.q.got <= items
      && (s.th2.UEnd? ==> s.q.got == items)
  {
    var a := RunKeeps(c, schedule, items, maxBlock);
    InvFacts(Run(Fresh<T>(c), schedule, items, maxBlock).q, a, c);
    hide Inv, Run, Fresh;
  }

  // ------------------------------------------------------------------ the consumer comes to its end

  /** A pop that will not come back empty: an element was queued when it began. */
  predicate WillTake<T>(s: State<T>) {
    Queued(s.q) > 0 && !(s.q.cons.C326? && s.q.cons.sawEmpty)
  }

  /** At most so many more steps of RunTh2 once RunTh1 has ended. */
  function StepsLeft<T>(s: State<T>): nat {
    var n := Queued(s.q);
    match s.th2
    case UTop(_) => if n == 0 then 16 else 40 * n
    case UEmpty(_) => if n == 0 then 15 else 40 * n - 1
    case UCall(last) => if last then 14 else if n == 0 then 30 else 40 * n - 2
    case UPop(last) =>
      if last then ConsumerFuel(s.q.cons)
      else if WillTake(s) then 40 * n - 16 + ConsumerFuel(s.q.cons)
      else if n == 0 then 16 + ConsumerFuel(s.q.cons) else 40 * n + ConsumerFuel(s.q.cons)
    case UEnd => 0
  }

  /** One step of a try_dequeue, seen from outside. */
  lemma TakingStep<T>(q: Queue<T>, a: Ring, c: Config)
    requires SpscCalls.Serves(q.cons, TryDequeue) && Inv(ConsStep(q), a, c)
    ensures var r := ConsStep(q);
      && r.sent == q.sent && ConsumerFuel(r.cons) < ConsumerFuel(q.cons) <= 13
      && (if !r.cons.CIdle? then r.got == q.got && (r.cons.C326? ==> r.cons.sawEmpty == (Queued(q) == 0))
          else |r.got| == |q.got| + 1 || (r.got == q.got && q.cons.C326? && q.cons.sawEmpty))
  {
    InvCorrect(ConsStep(q), a, c);
    hide Inv, ConsStep, Contents, Queued, ConsumerFuel;
    ServesMeans(q.cons);
    SpscCalls.ServesStep(q, TryDequeue);
    SpscCalls.DequeueAnswer(q, TryDequeue);
    hide SpscCalls.Serves;
    ConsumerProgress(q);
    PopStep(q);
  }

  lemma ServesMeans<T>(k: Consumer<T>)
    ensures SpscCalls.Serves(k, TryDequeue) ==> !k.CIdle? && !k.CCrash? && ConsumerFuel(k) >= 1
  {
  }

  lemma PopSpends<T>(s: State<T>, items: seq<T>, a: Ring, c: Config)
    requires Inv(s.q, a, c) && Progress(s, items) && s.th2.UPop?
    ensures StepsLeft(Th2Step(s)) < StepsLeft(s)
  {
    hide Inv, StepsLeft;
    var a' := ConsumerKeeps(s.q, a, c);
    TakingStep(s.q, a', c);
    InvFacts(ConsStep(s.q), a', c);
    ServesMeans(s.q.cons);
    hide ConsStep, ConsumerFuel, SpscCalls.Serves;
    PopCounts(s, ConsStep(s.q));
  }

  /** A step of a pop from `s.q` to `q`, counted. */
  lemma PopCounts<T>(s: State<T>, q: Queue<T>)
    requires s.th2.UPop? && !s.q.cons.CIdle? && (s.th2.last ==> |s.q.got| == |s.q.sent|)
    requires q.sent == s.q.sent && |q.got| <= |q.sent| && ConsumerFuel(q.cons) < ConsumerFuel(s.q.cons) <= 13
    requires if !q.cons.CIdle? then q.got == s.q.got && (q.cons.C326? ==> q.cons.sawEmpty == (Queued(s.q) == 0))
             else |q.got| == |s.q.got| + 1 || (q.got == s.q.got && s.q.cons.C326? && s.q.cons.sawEmpty)
    ensures StepsLeft(s.(q := q, th2 := if !q.cons.CIdle? then UPop(s.th2.last) else if s.th2.last then UEnd else UTop(false))) < StepsLeft(s)
  {
    hide ConsumerFuel;
  }

  /** A step of RunTh2 between pops, counted. */
  lemma BetweenPops<T>(s: State<T>)
    requires !s.th2.UPop? && !s.th2.UEnd? && s.done && (s.th2.UCall? && s.th2.last ==> Queued(s.q) == 0)
    requires SizeApprox(s.q) == Queued(s.q) && (!s.th2.UCall? ==> !s.th2.last)
    ensures StepsLeft(Th2Step(s)) < StepsLeft(s)
  {
    hide SizeApprox, ConsStep;
  }

  /** Once RunTh1 has ended each step of RunTh2 brings its end closer. */
  lemma ConsumerSpends<T>(s: State<T>, items: seq<T>, a: Ring, c: Config)
    requires Inv(s.q, a, c) && Progress(s, items) && s.th1.TEnd? && !s.th2.UEnd?
    ensures StepsLeft(Th2Step(s)) < StepsLeft(s)
  {
    hide Inv, StepsLeft, Th2Step, SizeApprox, SpscCalls.Serves, ConsStep;
    if s.th2.UPop? {
      PopSpends(s, items, a, c);
    } else {
      SizeIsQueued(s.q, a, c);
      InvFacts(s.q, a, c);
      BetweenPops(s);
    }
  }

  /** How often RunTh2 runs. */
  function TurnsOfTh2(schedule: seq<bool>): nat {
    if schedule == [] then 0
    else TurnsOfTh2(schedule[..|schedule| - 1]) + if schedule[|schedule| - 1] then 0 else 1
  }

  lemma {:induction false} EndsInTime<T>(c: Config, schedule: seq<bool>, more: seq<bool>, items: seq<T>, maxBlock: nat)
    requires ConfigOk(c) && Run(Fresh<T>(c), schedule, items, maxBlock).th1.TEnd?
    ensures var s, r := Run(Fresh<T>(c), schedule, items, maxBlock), Run(Fresh<T>(c), schedule + more, items, maxBlock);
      r.th1.TEnd? && (r.th2.UEnd? || StepsLeft(r) + TurnsOfTh2(more) <= StepsLeft(s))
  {
    hide Inv, FreshQueue, StepsLeft, Progress;
    if more == [] {
      assert schedule + more == schedule;
    } else {
      var n := |more| - 1;
      EndsInTime(c, schedule, more[..n], items, maxBlock);
      assert (schedule + more)[..|schedule + more| - 1] == schedule + more[..n];
      var q := Run(Fresh<T>(c), schedule + more[..n], items, maxBlock);
      var a := RunKeeps(c, schedule + more[..n], items, maxBlock);
      if !q.th2.UEnd? { ConsumerSpends(q, items, a, c); }
      hide ProdStep, ConsStep, SizeApprox, Fresh;
    }
  }

  lemma StepsUntilEnd<T>(s: State<T>)
    ensures StepsLeft(s) == 0 && (s.th2.UPop? ==> !s.q.cons.CIdle? && !s.q.cons.CCrash?) ==> s.th2.UEnd?
  {
  }

  /** The loop of RunTh2 ends: once RunTh1 has ended, after at most StepsLeft turns of its own RunTh2 is at its
      end with every item. */
  lemma ConsumerEnds<T>(c: Config, schedule: seq<bool>, more: seq<bool>, items: seq<T>, maxBlock: nat)
    requires ConfigOk(c) && Run(Fresh<T>(c), schedule, items, maxBlock).th1.TEnd?
    requires TurnsOfTh2(more) >= StepsLeft(Run(Fresh<T>(c), schedule, items, maxBlock))
    ensures var r := Run(Fresh<T>(c), schedule + more, items, maxBlock); r.th2.UEnd? && r.q.got == items
  {
    hide Run, Fresh, StepsLeft, Inv;
    EndsInTime(c, schedule, more, items, maxBlock);
    ReceivesAll(c, schedule + more, items, maxBlock);
    var a := RunKeeps(c, schedule + more, items, maxBlock);
    var r := Run(Fresh<T>(c), schedule + more, items, maxBlock);
    ServesMeans(r.q.cons);
    StepsUntilEnd(r);
  }
}
