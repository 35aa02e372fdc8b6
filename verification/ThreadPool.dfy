/** ThreadPool (include/thread_pool/threadPool.h) as a machine of any number of worker and client
    threads.  A step is what a thread does between taking a mutex and releasing it or going to sleep, or
    one atomic operation on `in_flight`, which is changed outside `queue_mutex`.  A sleeping thread stays
    asleep until a notify or a spurious wake-up makes it ready to take the mutex and test again. */
module ThreadPool {
  import opened Options

  type Client = nat

  /** Where a worker is in its loop, lines 204-251. */
  datatype Pc<T> =
    | Ready                // about to take queue_mutex and test the wait condition, line 210
    | Asleep               // on condition_consumers, not notified
    | Notify(task: T)      // owes the producers a notify_all, line 246
    | Running(task: T)     // about to run its task, line 250
    | Decrement            // task run, about to decrement in_flight, line 68
    | Signal               // took in_flight to zero, about to notify under in_flight_mutex, line 74
    | Ended

  datatype Worker<T> = Worker(number: nat, pc: Pc<T>)

  /** Where a client is inside enqueue, wait_until_empty or wait_until_nothing_in_flight. */
  datatype ClientPc<T> =
    | EnqueueReady(task: T) | EnqueueAsleep(task: T)
    | EnqueueAdded         // task emplaced, in_flight not yet incremented; holds queue_mutex, line 119
    | EmptyReady | EmptyAsleep
    | FlightReady
    | FlightChecked        // read in_flight != 0, not yet asleep; holds in_flight_mutex, line 150
    | FlightAsleep

  datatype Destructor = NotCalled | Woken | Sleeping | Finished

  /** `workers[i]` is Some(t) when slot i is joinable and runs thread t, None when it was detached.
      `queueMutex` and `flightMutex` name the client that holds the mutex between two steps.
      `faulty` records a failed assert or a detach of a slot that is not joinable.
      `accepted`, `taken` and `executed` are history variables: tasks emplaced, popped and run. */
  datatype Pool<T> = Pool(
    workers: seq<Option<nat>>,
    poolSize: nat,
    tasks: seq<T>,
    maxQueueSize: nat,
    stop: bool,
    inFlight: int,
    queueMutex: Option<Client>,
    flightMutex: Option<Client>,
    threads: seq<Worker<T>>,
    clients: map<Client, ClientPc<T>>,
    destructor: Destructor,
    faulty: bool,
    accepted: seq<T>,
    taken: seq<T>,
    executed: seq<T>)

  // ------------------------------------------------------------------ condition variables

  function Wake<T>(w: Worker<T>): Worker<T> {
    if w.pc.Asleep? then w.(pc := Ready) else w
  }

  function WakeAll<T>(ws: seq<Worker<T>>): (woken: seq<Worker<T>>)
    ensures |woken| == |ws| && forall i :: 0 <= i < |ws| ==> woken[i] == Wake(ws[i])
  {
    if ws == [] then [] else WakeAll(ws[..|ws| - 1]) + [Wake(ws[|ws| - 1])]
  }

  /** condition_consumers.notify_all(): the destructor waits there too. */
  function NotifyConsumers<T>(s: Pool<T>): Pool<T> {
    s.(threads := WakeAll(s.threads), destructor := if s.destructor.Sleeping? then Woken else s.destructor)
  }

  function WakeProducer<T>(pc: ClientPc<T>): ClientPc<T> {
    match pc
    case EnqueueAsleep(task) => EnqueueReady(task)
    case EmptyAsleep => EmptyReady
    case _ => pc
  }

  /** condition_producers.notify_all() */
  function NotifyProducers<T>(s: Pool<T>): Pool<T> {
    s.(clients := map c | c in s.clients :: WakeProducer(s.clients[c]))
  }

  /** in_flight_condition.notify_all() */
  function NotifyFlight<T>(s: Pool<T>): Pool<T> {
    s.(clients := map c | c in s.clients :: if s.clients[c].FlightAsleep? then FlightReady else s.clients[c])
  }

  // ------------------------------------------------------------------ the worker vector

  function StartWorker<T>(s: Pool<T>, i: nat): Pool<T> {
    if i > |s.workers| then s.(faulty := true)
    else if i < |s.workers| && s.workers[i].Some? then s
    else s.(workers := if i < |s.workers| then s.workers[i := Some(|s.threads|)] else s.workers + [Some(|s.threads|)],
            threads := s.threads + [Worker(i, Ready)])
  }

  /** The loop `for (i = from; i != to; ++i) start_worker(i, lock)`. */
  function StartWorkers<T>(s: Pool<T>, from: nat, to: nat): Pool<T> {
    if to <= from then s else StartWorker(StartWorkers(s, from, to - 1), to - 1)
  }

  function Downsize(workers: seq<Option<nat>>, poolSize: nat): seq<Option<nat>> {
    if |workers| > poolSize && workers[|workers| - 1].None? then Downsize(workers[..|workers| - 1], poolSize)
    else workers
  }

  // ------------------------------------------------------------------ the worker loop

  function SetPc<T>(s: Pool<T>, w: nat, pc: Pc<T>): Pool<T>
    requires w < |s.threads|
  {
    s.(threads := s.threads[w := s.threads[w].(pc := pc)])
  }

  /** Lines 221-225: detach the slot of this worker and drop the detached slots at the end. */
  function Detach<T>(s: Pool<T>, w: nat): Pool<T>
    requires w < |s.threads| && s.threads[w].number < |s.workers|
  {
    SetPc(s.(workers := Downsize(s.workers[s.threads[w].number := None], s.poolSize)), w, Ended)
  }

  /** Lines 221-229 */
  function Leave<T>(s: Pool<T>, w: nat): Pool<T>
    requires w < |s.threads|
  {
    var slot := s.threads[w].number;
    if slot < |s.workers| && s.workers[slot].Some? then
      var left := Detach(s, w);
      if left.workers == [] then NotifyConsumers(left) else left
    else s.(faulty := true)
  }

  /** Lines 210-240 */
  function Take<T>(s: Pool<T>, w: nat): Pool<T>
    requires w < |s.threads|
  {
    var surplus := s.poolSize < s.threads[w].number + 1;
    if !(s.stop || s.tasks != [] || surplus) then SetPc(s, w, Asleep)
    else if (s.stop && s.tasks == []) || (!s.stop && surplus) then Leave(s, w)
    else if s.tasks != [] then
      var task, rest := s.tasks[0], s.tasks[1..];
      var notify := |rest| + 1 == s.maxQueueSize || rest == [];
      SetPc(s.(tasks := rest, taken := s.taken + [task]), w, if notify then Notify(task) else Running(task))
    else s
  }

  function WorkerStep<T>(s: Pool<T>, w: nat): Pool<T>
    requires w < |s.threads|
  {
    match s.threads[w].pc
    case Ready => if s.queueMutex.None? then Take(s, w) else s
    case Asleep => s
    case Notify(task) => if s.queueMutex.None? then NotifyProducers(SetPc(s, w, Running(task))) else s
    case Running(task) => SetPc(s.(executed := s.executed + [task]), w, Decrement)
    case Decrement => SetPc(s.(inFlight := s.inFlight - 1), w, if s.inFlight == 1 then Signal else Ready)
    case Signal => if s.flightMutex.None? then NotifyFlight(SetPc(s, w, Ready)) else s
    case Ended => s
  }

  // ------------------------------------------------------------------ the clients

  /** Lines 104-119, up to the emplace */
  function EnqueueSection<T>(s: Pool<T>, c: Client, task: T): Pool<T> {
    if |s.tasks| >= s.maxQueueSize && !s.stop then s.(clients := s.clients[c := EnqueueAsleep(task)])
    else if s.stop then s.(clients := s.clients - {c})
    else s.(tasks := s.tasks + [task], accepted := s.accepted + [task], queueMutex := Some(c),
            clients := s.clients[c := EnqueueAdded])
  }

  predicate SomeAsleep<T>(ws: seq<Worker<T>>) {
    exists w :: 0 <= w < |ws| && ws[w].pc.Asleep?
  }

  /** Lines 119-122.  notify_one wakes one sleeping worker, any one, if there is one.  (The destructor
      sleeps on the same condition variable, but only once `stop` is set.) */
  function EnqueueEnd<T>(s: Pool<T>, c: Client, chosen: nat): Pool<T> {
    var added := s.(inFlight := s.inFlight + 1, queueMutex := None, clients := s.clients - {c});
    if !SomeAsleep(s.threads) then added
    else if chosen < |s.threads| && s.threads[chosen].pc.Asleep? then SetPc(added, chosen, Ready)
    else s
  }

  function ClientStep<T>(s: Pool<T>, c: Client, chosen: nat): Pool<T>
    requires c in s.clients
  {
    match s.clients[c]
    case EnqueueReady(task) => if s.queueMutex.None? then EnqueueSection(s, c, task) else s
    case EnqueueAsleep(task) => s
    case EnqueueAdded => EnqueueEnd(s, c, chosen)
    case EmptyReady =>
      if s.queueMutex.Some? then s
      else s.(clients := if s.tasks == [] then s.clients - {c} else s.clients[c := EmptyAsleep])
    case EmptyAsleep => s
    case FlightReady =>
      if s.flightMutex.Some? then s
      else if s.inFlight == 0 then s.(clients := s.clients - {c})
      else s.(flightMutex := Some(c), clients := s.clients[c := FlightChecked])
    case FlightChecked => s.(flightMutex := None, clients := s.clients[c := FlightAsleep])
    case FlightAsleep => s
  }

  function SetQueueSizeLimit<T>(s: Pool<T>, limit: nat): Pool<T> {
    if s.stop then s else
    var changed := s.(maxQueueSize := if limit < 1 then 1 else limit);
    if s.maxQueueSize < changed.maxQueueSize then NotifyProducers(changed) else changed
  }

  function SetPoolSize<T>(s: Pool<T>, limit: nat): Pool<T> {
    var size := if limit < 1 then 1 else limit;
    if s.stop then s
    else if |s.workers| < s.poolSize then s.(faulty := true)
    else if size > s.poolSize then StartWorkers(s.(poolSize := size), s.poolSize, size)
    else if size < s.poolSize then NotifyConsumers(s.(poolSize := size))
    else s
  }

  /** Lines 136-137 */
  function DestructorTest<T>(s: Pool<T>): Pool<T> {
    if s.workers == [] then s.(destructor := Finished, faulty := s.faulty || s.inFlight != 0)
    else s.(destructor := Sleeping)
  }

  function Destroy<T>(s: Pool<T>): Pool<T> {
    DestructorTest(NotifyProducers(NotifyConsumers(s.(stop := true, poolSize := 0))))
  }

  // ------------------------------------------------------------------ runs

  datatype Action<T> =
    | RunWorker(w: nat)
    | CallEnqueue(c: Client, task: T)
    | CallWaitUntilEmpty(c: Client)
    | CallWaitUntilNothingInFlight(c: Client)
    | RunClient(c: Client, chosen: nat)   // `chosen`: the worker a notify_one of this step wakes
    | CallSetQueueSizeLimit(limit: nat)
    | CallSetPoolSize(limit: nat)
    | CallDestructor
    | RunDestructor
    | WakeWorker(w: nat)                  // the last three: spurious wake-ups
    | WakeClient(c: Client)
    | WakeDestructor

  function Enter<T>(s: Pool<T>, c: Client, pc: ClientPc<T>): Pool<T> {
    if c in s.clients then s else s.(clients := s.clients[c := pc])
  }

  function WokenClient<T>(pc: ClientPc<T>): ClientPc<T> {
    if pc.FlightAsleep? then FlightReady else WakeProducer(pc)
  }

  function Step<T>(s: Pool<T>, a: Action<T>): Pool<T> {
    match a
    case RunWorker(w) => if w < |s.threads| then WorkerStep(s, w) else s
    case CallEnqueue(c, task) => Enter(s, c, EnqueueReady(task))
    case CallWaitUntilEmpty(c) => Enter(s, c, EmptyReady)
    case CallWaitUntilNothingInFlight(c) => Enter(s, c, FlightReady)
    case RunClient(c, chosen) => if c in s.clients then ClientStep(s, c, chosen) else s
    case CallSetQueueSizeLimit(limit) => if s.queueMutex.None? then SetQueueSizeLimit(s, limit) else s
    case CallSetPoolSize(limit) => if s.queueMutex.None? then SetPoolSize(s, limit) else s
    case CallDestructor => if s.queueMutex.None? && s.destructor.NotCalled? then Destroy(s) else s
    case RunDestructor => if s.queueMutex.None? && s.destructor.Woken? then DestructorTest(s) else s
    case WakeWorker(w) => if w < |s.threads| then s.(threads := s.threads[w := Wake(s.threads[w])]) else s
    case WakeClient(c) => if c in s.clients then s.(clients := s.clients[c := WokenClient(s.clients[c])]) else s
    case WakeDestructor => if s.destructor.Sleeping? then s.(destructor := Woken) else s
  }

  const DEFAULT_QUEUE_SIZE := 100_000

  /** The constructor: `threads` workers, started under the lock. */
  function Fresh<T>(threads: nat): Pool<T> {
    StartWorkers(Pool([], threads, [], DEFAULT_QUEUE_SIZE, false, 0, None, None, [], map[], NotCalled, false, [], [], []),
                 0, threads)
  }

  function Run<T>(threads: nat, schedule: seq<Action<T>>): Pool<T> {
    if schedule == [] then Fresh(threads)
    else Step(Run(threads, schedule[..|schedule| - 1]), schedule[|schedule| - 1])
  }
}
