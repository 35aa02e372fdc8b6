/** The thread pool as the object its methods update in place, one method for each critical section or
    atomic operation, proved against the steps of the machine. */
module ThreadPoolObject {
  import opened Options
  import opened Machine = ThreadPool
  import opened ThreadPoolProof
  import ThreadPoolCalls

  class ThreadPool<T(!new,==)> {
    var workers: seq<Option<nat>>
    var poolSize: nat
    var tasks: seq<T>
    var maxQueueSize: nat
    var stop: bool
    var inFlight: int
    // who holds the mutexes between two steps, where the threads are, and what the asserts said
    var queueMutex: Option<Client>
    var flightMutex: Option<Client>
    var threads: seq<Worker<T>>
    var clients: map<Client, ClientPc<T>>
    var destructor: Destructor
    var faulty: bool
    ghost var accepted: seq<T>
    ghost var taken: seq<T>
    ghost var executed: seq<T>

    ghost function State(): Pool<T>
      reads this
    {
      Pool(workers, poolSize, tasks, maxQueueSize, stop, inFlight, queueMutex, flightMutex,
           threads, clients, destructor, faulty, accepted, taken, executed)
    }

    ghost predicate Valid()
      reads this
    {
      Inv(State())
    }

    /** Lines 82-89 */
    constructor (size: nat)
      requires size >= 1
      ensures State() == Fresh(size) && Valid()
    {
      workers, poolSize, tasks, maxQueueSize, stop, inFlight := [], size, [], DEFAULT_QUEUE_SIZE, false, 0;
      queueMutex, flightMutex, threads, clients := None, None, [], map[];
      destructor, faulty, accepted, taken, executed := NotCalled, false, [], [], [];
      new;
      StartWorkers(0, size);
      FreshInv<T>(size);
    }

    /** The loops of lines 87-88 and 187-188. */
    method StartWorkers(from: nat, to: nat)
      requires from <= to
      modifies this
      ensures State() == Machine.StartWorkers(old(State()), from, to)
    {
      hide Machine.StartWorker;
      var i := from;
      while i != to
        invariant from <= i <= to && State() == Machine.StartWorkers(old(State()), from, i)
      {
        StartWorker(i);
        i := i + 1;
      }
    }

    /** Lines 195-262; the assert of line 199 sets `faulty`.  No joinable slot is touched and no thread
        already started is; the slot asked for ends up joinable; and where slots and live workers
        correspond they still do. */
    method StartWorker(workerNumber: nat)
      modifies this
      ensures State() == Machine.StartWorker(old(State()), workerNumber)
      ensures |old(workers)| <= |workers| && old(threads) <= threads
      ensures forall i :: 0 <= i < |old(workers)| && (old(workers)[i].Some? || i != workerNumber) ==> workers[i] == old(workers)[i]
      ensures workerNumber <= |old(workers)| ==>
        faulty == old(faulty) && workerNumber < |workers| && workers[workerNumber].Some?
      ensures Owned(old(workers), poolSize, old(threads)) && FilledBelow(old(workers), workerNumber) && workerNumber < poolSize ==>
        Owned(workers, poolSize, threads) && FilledBelow(workers, workerNumber + 1)
    {
      hide Owned;
      if Owned(workers, poolSize, threads) && FilledBelow(workers, workerNumber) && workerNumber < poolSize {
        StartWorkerOwned(State(), workerNumber);
      }
      if workerNumber > |workers| {
        faulty := true;
      } else if workerNumber < |workers| {
        if workers[workerNumber].None? {
          workers := workers[workerNumber := Some(|threads|)];
          threads := threads + [Worker(workerNumber, Ready)];
        }
      } else {
        workers := workers + [Some(|threads|)];
        threads := threads + [Worker(workerNumber, Ready)];
      }
    }

    method NotifyConsumers()
      modifies this`threads, this`destructor
      ensures State() == Machine.NotifyConsumers(old(State()))
    {
      threads := WakeAll(threads);
      if destructor.Sleeping? {
        destructor := Woken;
      }
    }

    method NotifyProducers()
      modifies this`clients
      ensures State() == Machine.NotifyProducers(old(State()))
    {
      clients := map c | c in clients :: WakeProducer(clients[c]);
    }

    method GoTo(w: nat, pc: Pc<T>)
      requires w < |threads|
      modifies this`threads
      ensures State() == SetPc(old(State()), w, pc)
    {
      threads := threads[w := threads[w].(pc := pc)];
    }

    /** Lines 223-225: detached slots at the end are dropped. */
    method DropDetached()
      modifies this`workers
      ensures workers == Downsize(old(workers), poolSize)
      ensures State() == old(State()).(workers := workers)
    {
      while |workers| > poolSize && workers[|workers| - 1].None?
        modifies this`workers
        invariant Downsize(workers, poolSize) == Downsize(old(workers), poolSize)
        decreases |workers|
      {
        workers := workers[..|workers| - 1];
      }
    }

    /** Lines 221-229: a worker gives up its slot. */
    method Leave(w: nat)
      requires w < |threads|
      modifies this
      ensures State() == Machine.Leave(old(State()), w)
    {
      hide Downsize, WakeAll, Wake;
      var slot := threads[w].number;
      if slot >= |workers| || workers[slot].None? {
        faulty := true;
        return;
      }
      workers := workers[slot := None];
      DropDetached();
      GoTo(w, Ended);
      if |workers| == 0 {
        NotifyConsumers();
      }
    }

    /** Lines 210-240 */
    method Take(w: nat)
      requires w < |threads|
      modifies this
      ensures State() == Machine.Take(old(State()), w)
    {
      hide Machine.Leave;
      var workerNumber := threads[w].number;
      if !(stop || tasks != [] || poolSize < workerNumber + 1) {
        GoTo(w, Asleep);
      } else if (stop && tasks == []) || (!stop && poolSize < workerNumber + 1) {
        Leave(w);
      } else if tasks != [] {
        var task := tasks[0];
        tasks := tasks[1..];
        taken := taken + [task];
        var notify := |tasks| + 1 == maxQueueSize || tasks == [];
        GoTo(w, if notify then Notify(task) else Running(task));
      }
    }

    /** Lines 209-240 */
    method TakeSection(w: nat)
      requires Valid() && w < |threads| && threads[w].pc.Ready? && queueMutex.None?
      modifies this
      ensures Valid() && State() == WorkerStep(old(State()), w)
    {
      TakeKeeps(State(), w);
      hide Machine.Take, Inv;
      Take(w);
    }

    /** Lines 244-248 */
    method NotifySection(w: nat)
      requires Valid() && w < |threads| && threads[w].pc.Notify? && queueMutex.None?
      modifies this
      ensures Valid() && State() == WorkerStep(old(State()), w)
    {
      NotifyKeeps(State(), w);
      hide Machine.NotifyProducers, Inv;
      GoTo(w, Running(threads[w].pc.task));
      NotifyProducers();
    }

    /** Line 250 */
    method RunTask(w: nat)
      requires Valid() && w < |threads| && threads[w].pc.Running?
      modifies this
      ensures Valid() && State() == WorkerStep(old(State()), w)
    {
      RunningKeeps(State(), w);
      hide Inv, Sum, Wake, WakeAll, SomeAsleep;
      executed := executed + [threads[w].pc.task];
      GoTo(w, Decrement);
    }

    /** Lines 66-72 */
    method DecrementInFlight(w: nat)
      requires Valid() && w < |threads| && threads[w].pc.Decrement?
      modifies this
      ensures Valid() && State() == WorkerStep(old(State()), w)
    {
      hide Inv, SomeAsleep;
      ghost var before := State();
      var prev := inFlight;
      inFlight := prev - 1;
      if prev == 1 {
        GoTo(w, Signal);
      } else {
        GoTo(w, Ready);
      }
      assert State() == WorkerStep(before, w);
      DecrementKeeps(before, w);
    }

    /** Lines 73-76 */
    method SignalSection(w: nat)
      requires Valid() && w < |threads| && threads[w].pc.Signal? && flightMutex.None?
      modifies this
      ensures Valid() && State() == WorkerStep(old(State()), w)
    {
      hide Inv, SomeAsleep;
      ghost var before := State();
      GoTo(w, Ready);
      clients := map c | c in clients :: if clients[c].FlightAsleep? then FlightReady else clients[c];
      assert State() == WorkerStep(before, w);
      SignalKeeps(before, w);
    }

    /** Lines 104-119: sleep, throw, or emplace. */
    method EnqueueSection(c: Client, task: T)
      requires Valid() && c in clients && clients[c] == EnqueueReady(task) && queueMutex.None?
      modifies this
      ensures Valid() && State() == Machine.EnqueueSection(old(State()), c, task)
      ensures stop ==> clients == old(clients) - {c} && tasks == old(tasks) && accepted == old(accepted)
      ensures !stop && |old(tasks)| >= maxQueueSize ==>
        clients == old(clients)[c := EnqueueAsleep(task)] && tasks == old(tasks) && accepted == old(accepted)
      ensures !stop && |old(tasks)| < maxQueueSize ==>
        clients == old(clients)[c := EnqueueAdded] && tasks == old(tasks) + [task] && accepted == old(accepted) + [task]
    {
      hide Inv, SomeAsleep;
      ghost var before := State();
      if |tasks| >= maxQueueSize && !stop {
        clients := clients[c := EnqueueAsleep(task)];
      } else if stop {
        clients := clients - {c};
      } else {
        tasks := tasks + [task];
        accepted := accepted + [task];
        queueMutex := Some(c);
        clients := clients[c := EnqueueAdded];
      }
      assert State() == Machine.EnqueueSection(before, c, task);
      EnqueueSectionKeeps(before, c);
    }

    /** condition_consumers.notify_one(): any one sleeping worker. */
    method NotifyOne() returns (chosen: nat)
      modifies this`threads
      ensures if SomeAsleep(old(threads))
        then chosen < |old(threads)| && old(threads)[chosen].pc.Asleep? && State() == SetPc(old(State()), chosen, Ready)
        else State() == old(State())
    {
      chosen := 0;
      if SomeAsleep(threads) {
        chosen :| 0 <= chosen < |threads| && threads[chosen].pc.Asleep?;
        GoTo(chosen, Ready);
      }
    }

    /** Lines 119-124: count the new work item, notify one worker and let go of the mutex. */
    method EnqueueEnd(c: Client)
      requires Valid() && c in clients && clients[c].EnqueueAdded?
      modifies this
      ensures Valid() && inFlight == old(inFlight) + 1 && queueMutex.None? && clients == old(clients) - {c}
      ensures exists chosen: nat ::
        && (SomeAsleep(old(threads)) ==> chosen < |old(threads)| && old(threads)[chosen].pc.Asleep?)
        && State() == Machine.EnqueueEnd(old(State()), c, chosen)
    {
      ghost var before := State();
      hide Inv, Sum, Wake, WakeAll, SomeAsleep;
      inFlight := inFlight + 1;
      queueMutex := None;
      clients := clients - {c};
      var chosen := NotifyOne();
      EnqueueEndKeeps(before, c, chosen);
      assert State() == Machine.EnqueueEnd(before, c, chosen);
    }

    /** Lines 142-144: return if nothing is queued, else sleep. */
    method WaitUntilEmptySection(c: Client) returns (done: bool)
      requires Valid() && c in clients && clients[c].EmptyReady? && queueMutex.None?
      modifies this
      ensures Valid() && State() == ClientStep(old(State()), c, 0)
      ensures done <==> old(tasks) == []
    {
      hide Inv, SomeAsleep;
      ghost var before := State();
      done := tasks == [];
      clients := if done then clients - {c} else clients[c := EmptyAsleep];
      assert State() == ClientStep(before, c, 0);
      EmptyKeeps(before, c, 0);
    }

    /** Lines 149-151: return if nothing is in flight, else keep in_flight_mutex until asleep. */
    method WaitUntilNothingInFlightTest(c: Client) returns (done: bool)
      requires Valid() && c in clients && clients[c].FlightReady? && flightMutex.None?
      modifies this
      ensures Valid() && State() == ClientStep(old(State()), c, 0)
      ensures done <==> old(inFlight) == 0
    {
      hide Inv, SomeAsleep;
      ghost var before := State();
      done := inFlight == 0;
      if done {
        clients := clients - {c};
      } else {
        flightMutex := Some(c);
        clients := clients[c := FlightChecked];
      }
      assert State() == ClientStep(before, c, 0);
      FlightCheckKeeps(before, c, 0);
    }

    method WaitUntilNothingInFlightSleep(c: Client)
      requires Valid() && c in clients && clients[c].FlightChecked?
      modifies this
      ensures Valid() && State() == ClientStep(old(State()), c, 0)
    {
      hide Inv, SomeAsleep;
      ghost var before := State();
      flightMutex := None;
      clients := clients[c := FlightAsleep];
      assert State() == ClientStep(before, c, 0);
      FlightSleepKeeps(before, c, 0);
    }

    /** Lines 154-165 */
    method SetQueueSizeLimit(limit: nat)
      requires Valid() && queueMutex.None?
      modifies this
      ensures Valid() && State() == Machine.SetQueueSizeLimit(old(State()), limit)
      ensures maxQueueSize == if stop then old(maxQueueSize) else if limit < 1 then 1 else limit
    {
      LimitKeeps(State(), limit);
      hide Inv, Machine.NotifyProducers;
      if stop {
        return;
      }
      var oldLimit := maxQueueSize;
      maxQueueSize := if limit < 1 then 1 else limit;
      if oldLimit < maxQueueSize {
        NotifyProducers();
      }
    }

    /** Lines 167-193 */
    method SetPoolSize(limit: nat)
      requires Valid() && queueMutex.None?
      modifies this
      ensures Valid() && State() == Machine.SetPoolSize(old(State()), limit)
      ensures poolSize == if stop then old(poolSize) else if limit < 1 then 1 else limit
    {
      PoolSizeKeeps(State(), limit);
      ThreadPoolCalls.ResizeMeans(State(), limit);
      assert !stop ==> |workers| >= poolSize;
      hide Inv, Machine.StartWorkers, Machine.NotifyConsumers;
      var size := if limit < 1 then 1 else limit;
      if stop {
        return;
      }
      var oldSize := poolSize;
      assert |workers| >= oldSize;
      poolSize := size;
      if poolSize > oldSize {
        StartWorkers(oldSize, poolSize);
      } else if poolSize < oldSize {
        NotifyConsumers();
      }
    }

    /** Lines 136-137: the test of the destructor's wait, and its assert. */
    method DestructorTest()
      modifies this`destructor, this`faulty
      ensures State() == Machine.DestructorTest(old(State()))
    {
      if workers == [] {
        destructor := Finished;
        faulty := faulty || inFlight != 0;
      } else {
        destructor := Sleeping;
      }
    }

    /** Lines 129-138, up to the first wait. */
    method Destroy()
      requires Valid() && queueMutex.None? && destructor.NotCalled?
      modifies this
      ensures Valid() && State() == Machine.Destroy(old(State()))
      ensures stop && poolSize == 0 && (if workers == [] then destructor.Finished? else destructor.Sleeping?)
    {
      DestroyKeeps(State());
      hide Inv, Machine.NotifyConsumers, Machine.NotifyProducers, Machine.DestructorTest;
      stop := true;
      poolSize := 0;
      NotifyConsumers();
      NotifyProducers();
      DestructorTest();
    }
  }
}
