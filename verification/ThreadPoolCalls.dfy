/** What each call of the thread pool does, told without the sections that do it. */
module ThreadPoolCalls {
  import opened Options
  import opened ThreadPool
  import opened ThreadPoolProof
  import opened ThreadPoolTheorems

  // ------------------------------------------------------------------ accepting a task

  /** Client `c` is inside enqueue with `task` and finds room. */
  ghost predicate MayEnqueue<T>(s: Pool<T>, c: Client, task: T) {
    && c in s.clients && s.clients[c] == EnqueueReady(task) && s.queueMutex.None?
    && !s.stop && |s.tasks| < s.maxQueueSize
  }

  /** What was accepted is as before and so is the queue, unless a task was taken off. */
  ghost predicate NothingAccepted<T>(s: Pool<T>, r: Pool<T>) {
    r.accepted == s.accepted && |r.tasks| <= |s.tasks|
  }

  lemma {:induction false} StartWorkersAccept<T>(s: Pool<T>, from: nat, to: nat)
    ensures var r := StartWorkers(s, from, to); NothingAccepted(s, r) && r.tasks == s.tasks && r.maxQueueSize == s.maxQueueSize
  {
    if from < to { StartWorkersAccept(s, from, to - 1); }
  }

  lemma WorkerAccepts<T>(s: Pool<T>, w: nat)
    requires w < |s.threads|
    ensures NothingAccepted(s, WorkerStep(s, w)) && WorkerStep(s, w).maxQueueSize == s.maxQueueSize
  {
    hide Downsize, Wake, WakeAll, WakeProducer;
  }

  lemma CallAccepts<T>(s: Pool<T>, a: Action<T>)
    requires !a.RunWorker? && !a.RunClient?
    ensures NothingAccepted(s, Step(s, a))
    ensures !a.CallSetQueueSizeLimit? ==> Step(s, a).maxQueueSize == s.maxQueueSize
  {
    if a.CallSetPoolSize? {
      var size := if a.limit < 1 then 1 else a.limit;
      StartWorkersAccept(s.(poolSize := size), s.poolSize, size);
    }
    hide StartWorkers, Wake, WakeAll, WakeProducer;
  }

  lemma ClientAccepts<T>(s: Pool<T>, c: Client, chosen: nat)
    requires c in s.clients
    ensures var r := ClientStep(s, c, chosen);
      if s.clients[c].EnqueueReady? && MayEnqueue(s, c, s.clients[c].task) then
        && r.accepted == s.accepted + [s.clients[c].task] && r.tasks == s.tasks + [s.clients[c].task]
        && r.clients == s.clients[c := EnqueueAdded] && r.queueMutex == Some(c)
      else NothingAccepted(s, r)
    ensures ClientStep(s, c, chosen).maxQueueSize == s.maxQueueSize
  {
    hide SomeAsleep;
  }

  /** A task is accepted by one step of an enqueue that holds the mutex, with the pool not stopped and
      the queue below its limit; no other step lengthens the queue or the list of accepted tasks. */
  lemma AcceptsOnlyWithRoom<T>(s: Pool<T>, a: Action<T>)
    ensures var r := Step(s, a);
      if a.RunClient? && a.c in s.clients && s.clients[a.c].EnqueueReady? && MayEnqueue(s, a.c, s.clients[a.c].task) then
        && r.accepted == s.accepted + [s.clients[a.c].task] && r.tasks == s.tasks + [s.clients[a.c].task]
        && r.clients == s.clients[a.c := EnqueueAdded] && r.queueMutex == Some(a.c)
      else r.accepted == s.accepted && |r.tasks| <= |s.tasks|
  {
    hide WorkerStep, ClientStep, MayEnqueue, SetPoolSize, Destroy, SetQueueSizeLimit;
    match a
    case RunWorker(w) => if w < |s.threads| { WorkerAccepts(s, w); }
    case RunClient(c, chosen) => if c in s.clients { ClientAccepts(s, c, chosen); }
    case _ => CallAccepts(s, a);
  }

  lemma LimitStays<T>(s: Pool<T>, a: Action<T>)
    ensures !a.CallSetQueueSizeLimit? ==> Step(s, a).maxQueueSize == s.maxQueueSize
    ensures a.CallSetQueueSizeLimit? ==>
      Step(s, a).maxQueueSize == if s.queueMutex.Some? || s.stop then s.maxQueueSize else if a.limit < 1 then 1 else a.limit
  {
    hide WorkerStep, ClientStep, SetPoolSize, Destroy, NotifyProducers;
    match a
    case RunWorker(w) => if w < |s.threads| { WorkerAccepts(s, w); }
    case RunClient(c, chosen) => if c in s.clients { ClientAccepts(s, c, chosen); }
    case CallSetQueueSizeLimit(_) => NotifyLeavesLimit(s.(maxQueueSize := if a.limit < 1 then 1 else a.limit));
    case _ => CallAccepts(s, a);
  }

  lemma NotifyLeavesLimit<T>(s: Pool<T>)
    ensures NotifyProducers(s).maxQueueSize == s.maxQueueSize
  {
  }

  /** Whatever happens, no more tasks are queued than the highest limit that was in force. */
  lemma {:induction false} QueueBounded<T>(threads: nat, schedule: seq<Action<T>>, bound: nat)
    requires forall k :: 0 <= k <= |schedule| ==> Run(threads, schedule[..k]).maxQueueSize <= bound
    ensures |Run(threads, schedule).tasks| <= bound
  {
    if schedule == [] {
      StartWorkersAccept<T>(Pool([], threads, [], DEFAULT_QUEUE_SIZE, false, 0, None, None, [], map[], NotCalled, false, [], [], []), 0, threads);
    } else {
      hide Step;
      var n := |schedule| - 1;
      assert forall k :: 0 <= k <= n ==> schedule[..n][..k] == schedule[..k];
      QueueBounded(threads, schedule[..n], bound);
      assert Run(threads, schedule[..n]).maxQueueSize <= bound;
      AcceptsOnlyWithRoom(Run(threads, schedule[..n]), schedule[n]);
    }
  }

  /** No call of the schedule lowers the limit. */
  ghost predicate NeverLowers<T>(threads: nat, schedule: seq<Action<T>>) {
    forall k :: 0 <= k < |schedule| && schedule[k].CallSetQueueSizeLimit? ==> Run(threads, schedule[..k]).maxQueueSize <= schedule[k].limit
  }

  lemma OneStep<T>(threads: nat, schedule: seq<Action<T>>, k: nat)
    requires k < |schedule|
    ensures Run(threads, schedule[..k + 1]) == Step(Run(threads, schedule[..k]), schedule[k])
  {
    hide Step;
    var longer := schedule[..k + 1];
    assert longer[..|longer| - 1] == schedule[..k] && longer[|longer| - 1] == schedule[k];
  }

  lemma {:induction false} LimitRises<T>(threads: nat, schedule: seq<Action<T>>, k: nat)
    requires NeverLowers(threads, schedule) && k <= |schedule|
    ensures Run(threads, schedule[..k]).maxQueueSize <= Run(threads, schedule).maxQueueSize
    decreases |schedule| - k
  {
    hide Step, Run;
    if k < |schedule| {
      OneStep(threads, schedule, k);
      LimitStays(Run(threads, schedule[..k]), schedule[k]);
      LimitRises(threads, schedule, k + 1);
    } else {
      assert schedule[..|schedule|] == schedule;
    }
  }

  /** set_queue_size_limit is kept: on every schedule that does not lower it the queue never exceeds it. */
  lemma LimitKept<T>(threads: nat, schedule: seq<Action<T>>)
    requires NeverLowers(threads, schedule)
    ensures |Run(threads, schedule).tasks| <= Run(threads, schedule).maxQueueSize
  {
    hide Run, NeverLowers;
    forall k | 0 <= k <= |schedule| ensures Run(threads, schedule[..k]).maxQueueSize <= Run(threads, schedule).maxQueueSize {
      LimitRises(threads, schedule, k);
    }
    QueueBounded(threads, schedule, Run(threads, schedule).maxQueueSize);
  }

  /** What an enqueue that has the mutex does next (104-119): on a stopped pool it leaves, at the limit it
      sleeps, and in both cases the queue is as it was; otherwise its task is the newest one. */
  lemma EnqueueAnswers<T>(s: Pool<T>, c: Client, task: T, chosen: nat)
    requires c in s.clients && s.clients[c] == EnqueueReady(task) && s.queueMutex.None?
    ensures var r := Step(s, RunClient(c, chosen));
      && (s.stop ==> c !in r.clients && r.tasks == s.tasks && r.accepted == s.accepted)
      && (!s.stop && |s.tasks| >= s.maxQueueSize ==>
            c in r.clients && r.clients[c] == EnqueueAsleep(task) && r.tasks == s.tasks && r.accepted == s.accepted)
      && (!s.stop && |s.tasks| < s.maxQueueSize ==>
            && c in r.clients && r.clients[c].EnqueueAdded? && r.tasks == s.tasks + [task] && r.accepted == s.accepted + [task])
      && r.inFlight == s.inFlight && r.threads == s.threads
  {
  }

  // ------------------------------------------------------------------ when a client's call returns

  /** What lets the call of a client at this point return. */
  ghost predicate MayReturn<T>(s: Pool<T>, pc: ClientPc<T>) {
    match pc
    case EnqueueReady(_) => s.queueMutex.None? && s.stop
    case EnqueueAdded => true
    case EmptyReady => s.queueMutex.None? && s.tasks == []
    case FlightReady => s.flightMutex.None? && s.inFlight == 0
    case _ => false
  }

  /** Where a client inside a call may be after a step: still in the same call. */
  ghost predicate SameCall<T>(before: ClientPc<T>, after: ClientPc<T>) {
    match before
    case EnqueueReady(task) => after == EnqueueReady(task) || after == EnqueueAsleep(task) || after == EnqueueAdded
    case EnqueueAsleep(task) => after == EnqueueReady(task) || after == EnqueueAsleep(task)
    case EnqueueAdded => after == EnqueueAdded
    case EmptyReady => after.EmptyReady? || after.EmptyAsleep?
    case EmptyAsleep => after.EmptyReady? || after.EmptyAsleep?
    case FlightReady => after.FlightReady? || after.FlightChecked?
    case FlightChecked => after.FlightChecked? || after.FlightAsleep?
    case FlightAsleep => after.FlightReady? || after.FlightAsleep?
  }

  lemma {:induction false} StartWorkersClients<T>(s: Pool<T>, from: nat, to: nat)
    ensures StartWorkers(s, from, to).clients == s.clients
  {
    if from < to { StartWorkersClients(s, from, to - 1); }
  }

  lemma TakeClients<T>(s: Pool<T>, w: nat)
    requires w < |s.threads|
    ensures Take(s, w).clients == s.clients
  {
    hide Downsize, Wake, WakeAll;
  }

  lemma NotifiedClient<T>(s: Pool<T>, c: Client)
    requires c in s.clients
    ensures var r := NotifyProducers(s).clients; c in r && r[c] == WakeProducer(s.clients[c])
    ensures var r := NotifyFlight(s).clients; c in r && SameCall(s.clients[c], r[c])
    ensures SameCall(s.clients[c], WakeProducer(s.clients[c])) && SameCall(s.clients[c], s.clients[c])
  {
  }

  lemma WorkerStepClient<T>(s: Pool<T>, w: nat, c: Client)
    requires w < |s.threads| && c in s.clients
    ensures var r := WorkerStep(s, w); c in r.clients && SameCall(s.clients[c], r.clients[c])
  {
    hide Take, NotifyProducers, NotifyFlight, SameCall, WakeProducer;
    NotifiedClient(s, c);
    match s.threads[w].pc
    case Ready => TakeClients(s, w);
    case Notify(task) => NotifiedClient(SetPc(s, w, Running(task)), c);
    case Signal => NotifiedClient(SetPc(s, w, Ready), c);
    case _ =>
  }

  lemma WokenStays<T>(pc: ClientPc<T>)
    ensures SameCall(pc, WokenClient(pc))
  {
  }

  lemma CallClient<T>(s: Pool<T>, a: Action<T>, c: Client)
    requires !a.RunWorker? && !a.RunClient? && c in s.clients
    ensures var r := Step(s, a); c in r.clients && SameCall(s.clients[c], r.clients[c])
  {
    hide StartWorkers, Wake, WakeAll, WorkerStep, ClientStep, SameCall, WakeProducer;
    SameStays(s.clients[c]);
    match a
    case CallSetPoolSize(limit) =>
      var size := if limit < 1 then 1 else limit;
      StartWorkersClients(s.(poolSize := size), s.poolSize, size);
    case CallSetQueueSizeLimit(_) => NotifiedClient(s, c);
    case CallDestructor => NotifiedClient(s, c);
    case WakeClient(_) => WokenStays(s.clients[c]);
    case _ =>
  }

  lemma OwnStep<T>(s: Pool<T>, c: Client, chosen: nat)
    requires c in s.clients
    ensures var r := ClientStep(s, c, chosen);
      if c in r.clients then SameCall(s.clients[c], r.clients[c]) else MayReturn(s, s.clients[c])
  {
    hide SomeAsleep;
  }

  lemma OtherStep<T>(s: Pool<T>, c: Client, d: Client, chosen: nat)
    requires c in s.clients && d in s.clients && d != c
    ensures var r := ClientStep(s, d, chosen); c in r.clients && r.clients[c] == s.clients[c]
  {
    hide SomeAsleep;
  }

  /** A call returns only by a step of its own client and only when it may: an enqueue once its task is in
      or the pool is stopped, wait_until_empty with nothing queued, wait_until_nothing_in_flight with
      nothing in flight; and until then it stays the same call. */
  lemma ReturnsOnlyWhenDone<T>(s: Pool<T>, a: Action<T>, c: Client)
    requires c in s.clients
    ensures var r := Step(s, a);
      if c in r.clients then SameCall(s.clients[c], r.clients[c])
      else a.RunClient? && a.c == c && MayReturn(s, s.clients[c])
  {
    hide WorkerStep, ClientStep, MayReturn, SetPoolSize, Destroy, SetQueueSizeLimit, SameCall;
    match a
    case RunWorker(w) => if w < |s.threads| { WorkerStepClient(s, w, c); } else { SameStays(s.clients[c]); }
    case RunClient(d, chosen) =>
      SameStays(s.clients[c]);
      if d == c { OwnStep(s, c, chosen); } else if d in s.clients { OtherStep(s, c, d, chosen); }
    case _ => CallClient(s, a, c);
  }

  lemma SameStays<T>(pc: ClientPc<T>)
    ensures SameCall(pc, pc)
  {
  }

  /** The next step of a waiting client that holds the mutex returns when its condition holds and
      otherwise goes to sleep, for wait_until_nothing_in_flight by way of line 150. */
  lemma WaitAnswers<T>(s: Pool<T>, c: Client, chosen: nat)
    requires c in s.clients
    ensures var r := Step(s, RunClient(c, chosen));
      && (s.clients[c].EmptyReady? && s.queueMutex.None? ==>
            if s.tasks == [] then c !in r.clients else c in r.clients && r.clients[c].EmptyAsleep?)
      && (s.clients[c].FlightReady? && s.flightMutex.None? ==>
            if s.inFlight == 0 then c !in r.clients
            else c in r.clients && r.clients[c].FlightChecked? && r.flightMutex == Some(c))
      && (s.clients[c].FlightChecked? ==> c in r.clients && r.clients[c].FlightAsleep? && r.flightMutex.None?)
  {
    hide SomeAsleep;
  }

  // ------------------------------------------------------------------ the worker

  /** Only a worker that stays takes a task: the pool is stopped or its number is below the pool's size;
      it takes the oldest, and nothing else lengthens the list of tasks taken. */
  lemma WorkerTakes<T>(s: Pool<T>, w: nat)
    requires w < |s.threads|
    ensures var r := WorkerStep(s, w);
      || (r.taken == s.taken && r.tasks == s.tasks)
      || (s.threads[w].pc.Ready? && s.queueMutex.None? && s.tasks != []
          && (s.stop || s.threads[w].number < s.poolSize)
          && r.taken == s.taken + [s.tasks[0]] && r.tasks == s.tasks[1..])
  {
    hide Leave, NotifyProducers, NotifyFlight;
    if s.threads[w].pc.Ready? { LeaveTakes(s, w); }
    NotifyTakes(s, w);
  }

  lemma LeaveTakes<T>(s: Pool<T>, w: nat)
    requires w < |s.threads|
    ensures Leave(s, w).taken == s.taken && Leave(s, w).tasks == s.tasks
  {
    hide Downsize, Wake, WakeAll;
  }

  lemma NotifyTakes<T>(s: Pool<T>, w: nat)
    requires w < |s.threads|
    ensures forall pc :: var r := NotifyProducers(SetPc(s, w, pc)); r.taken == s.taken && r.tasks == s.tasks
    ensures forall pc :: var r := NotifyFlight(SetPc(s, w, pc)); r.taken == s.taken && r.tasks == s.tasks
  {
  }

  lemma LeaveEnds<T>(s: Pool<T>, w: nat)
    requires w < |s.threads| && s.threads[w].number < |s.workers| && s.workers[s.threads[w].number].Some?
    ensures var r := Leave(s, w); |r.threads| == |s.threads| && r.threads[w].pc.Ended?
  {
    hide Downsize;
  }

  /** What a worker that has the mutex does next (210-240).  It sleeps when there is nothing for it: no
      task, no stop, and it is wanted.  It ends when the pool is stopped and the queue is empty, or when
      its number is not below the pool's size and the pool is not stopped.  Otherwise it holds the
      oldest task, and goes on to notify the producers when the queue was full or is empty now. */
  lemma WorkerAnswers<T(!new)>(threads: nat, schedule: seq<Action<T>>, w: nat)
    requires threads >= 1
    requires var s := Run(threads, schedule); w < |s.threads| && s.threads[w].pc.Ready? && s.queueMutex.None?
    ensures var s := Run(threads, schedule);
      var r := Step(s, RunWorker(w));
      var wanted := s.threads[w].number < s.poolSize;
      && w < |r.threads|
      && (r.threads[w].pc.Asleep? <==> !s.stop && s.tasks == [] && wanted)
      && (r.threads[w].pc.Ended? <==> if s.stop then s.tasks == [] else !wanted)
      && (!r.threads[w].pc.Asleep? && !r.threads[w].pc.Ended? ==>
            && s.tasks != [] && r.taken == s.taken + [s.tasks[0]] && r.tasks == s.tasks[1..]
            && r.threads[w].pc == if |s.tasks| == s.maxQueueSize || |s.tasks| == 1 then Notify(s.tasks[0]) else Running(s.tasks[0]))
  {
    RunKeeps(threads, schedule);
    hide Run, Ledger, WorkersAwake, ClientsOwed, Leave, Downsize, FilledBelow, Sum, WakeAll, Wake, SomeAsleep, Holders;
    LeaveEnds(Run(threads, schedule), w);
  }

  // ------------------------------------------------------------------ sizes

  lemma {:induction false} StartWorkersFrame<T>(s: Pool<T>, from: nat, to: nat)
    requires from <= to && from <= |s.workers|
    ensures var r := StartWorkers(s, from, to);
      && r.poolSize == s.poolSize && r.stop == s.stop && r.faulty == s.faulty
      && |r.workers| == if |s.workers| < to then to else |s.workers|
  {
    if from < to { StartWorkersFrame(s, from, to - 1); }
  }

  /** set_pool_size: on a pool that is not stopped the size becomes the limit, at least one; a growing
      pool ends with the slots it needs, a shrinking one keeps its slots until their workers end and
      has no worker asleep.  A stopped pool is left as it is. */
  lemma ResizeMeans<T(!new)>(s: Pool<T>, limit: nat)
    requires Inv(s)
    ensures var r := SetPoolSize(s, limit);
      var size := if limit < 1 then 1 else limit;
      if s.stop then r == s else
        && r.poolSize == size && !r.stop && !r.faulty
        && |r.workers| == (if |s.workers| < size then size else |s.workers|)
        && (size < s.poolSize ==> r.workers == s.workers && !SomeAsleep(r.threads))
  {
    var size := if limit < 1 then 1 else limit;
    if !s.stop && s.poolSize < size { StartWorkersFrame(s.(poolSize := size), s.poolSize, size); }
    hide Ledger, WorkersAwake, ClientsOwed, StartWorkers;
  }

  lemma {:induction false} FreshWorkers<T>(s: Pool<T>, n: nat)
    requires s.workers == [] && s.threads == []
    ensures var r := StartWorkers(s, 0, n);
      && |r.workers| == |r.threads| == n
      && (forall i :: 0 <= i < n ==> r.workers[i] == Some(i) && r.threads[i] == Worker(i, Ready))
      && r == s.(workers := r.workers, threads := r.threads)
  {
    if n > 0 {
      FreshWorkers(s, n - 1);
      var before := StartWorkers(s, 0, n - 1);
      assert StartWorkers(s, 0, n) == StartWorker(before, n - 1);
      hide StartWorkers;
    }
  }

  /** The constructor starts the asked number of workers, one for each slot, and nothing else has
      happened. */
  lemma FreshMeans<T>(n: nat)
    ensures var s := Fresh<T>(n);
      && s.poolSize == n == |s.workers| == |s.threads|
      && (forall i :: 0 <= i < n ==> s.workers[i] == Some(i) && s.threads[i] == Worker(i, Ready))
      && s.tasks == [] && s.maxQueueSize == 100_000 && !s.stop && s.inFlight == 0
      && s.queueMutex.None? && s.flightMutex.None? && s.clients == map[]
  {
    FreshWorkers<T>(Pool([], n, [], DEFAULT_QUEUE_SIZE, false, 0, None, None, [], map[], NotCalled, false, [], [], []), n);
  }

  // ------------------------------------------------------------------ the destructor

  /** The destructor stops the pool, asks all workers to end, leaves nobody asleep that could go on, and
      returns at once exactly when there is no worker. */
  lemma DestroyMeans<T>(s: Pool<T>)
    requires s.destructor.NotCalled? && s.queueMutex.None?
    ensures var r := Step(s, CallDestructor);
      && r.stop && r.poolSize == 0 && !SomeAsleep(r.threads) && !SomeEnqueueAsleep(r.clients) && !SomeEmptyAsleep(r.clients)
      && (if s.workers == [] then r.destructor.Finished? else r.destructor.Sleeping?)
      && r.tasks == s.tasks && r.accepted == s.accepted && r.taken == s.taken && r.executed == s.executed
  {
  }

  /** Woken and given the mutex, the destructor returns exactly when no worker is left; no other step
      makes it return. */
  lemma DestructorReturns<T>(s: Pool<T>, a: Action<T>)
    ensures var r := Step(s, a);
      !s.destructor.Finished? ==>
        (r.destructor.Finished? <==>
           && ((a.RunDestructor? && s.destructor.Woken?) || (a.CallDestructor? && s.destructor.NotCalled?))
           && s.queueMutex.None? && s.workers == [])
  {
    hide StartWorkers, Wake, WakeAll, WakeProducer, WorkerStep, ClientStep;
    match a
    case CallSetPoolSize(limit) =>
      var size := if limit < 1 then 1 else limit;
      StartWorkersDestructor(s.(poolSize := size), s.poolSize, size);
    case RunWorker(w) => if w < |s.threads| { WorkerDestructor(s, w); }
    case RunClient(c, chosen) => if c in s.clients { ClientDestructor(s, c, chosen); }
    case _ =>
  }

  lemma WorkerDestructor<T>(s: Pool<T>, w: nat)
    requires w < |s.threads|
    ensures WorkerStep(s, w).destructor == s.destructor || WorkerStep(s, w).destructor == Woken
  {
    hide Wake, WakeAll, WakeProducer, Downsize;
  }

  lemma ClientDestructor<T>(s: Pool<T>, c: Client, chosen: nat)
    requires c in s.clients
    ensures ClientStep(s, c, chosen).destructor == s.destructor
  {
    hide SomeAsleep;
  }

  lemma {:induction false} StartWorkersDestructor<T>(s: Pool<T>, from: nat, to: nat)
    ensures StartWorkers(s, from, to).destructor == s.destructor
  {
    if from < to { StartWorkersDestructor(s, from, to - 1); }
  }
}
