/** What holds on every run of the thread pool: any number of clients and workers, any sequence of
    resizes and limit changes, any interleaving. */
module ThreadPoolTheorems {
  import opened Options
  import opened ThreadPool
  import opened ThreadPoolProof

  // ------------------------------------------------------------------ the worker vector

  /** Before stop every slot below the target size runs a live worker; always each live worker owns
      exactly the slot of its number and each joinable slot belongs to a live worker; after stop the
      vector is empty exactly when no worker is live.  No assert fails and no detached slot is detached. */
  lemma WorkerSlots<T(!new)>(threads: nat, schedule: seq<Action<T>>)
    requires threads >= 1
    ensures var s := Run(threads, schedule);
      && !s.faulty
      && (!s.stop ==> 1 <= s.poolSize <= |s.workers| && forall i :: 0 <= i < s.poolSize ==>
            s.workers[i].Some? && s.workers[i].value < |s.threads| && Live(s.threads[s.workers[i].value]))
      && (forall t, i :: 0 <= t < |s.threads| && 0 <= i < |s.workers| ==>
            (s.workers[i] == Some(t) <==> Live(s.threads[t]) && s.threads[t].number == i))
      && (forall t :: 0 <= t < |s.threads| && Live(s.threads[t]) ==> s.threads[t].number < |s.workers|)
      && (s.stop ==> (s.workers == [] <==> forall t :: 0 <= t < |s.threads| ==> s.threads[t].pc.Ended?))
  {
    RunKeeps(threads, schedule);
    hide Run, Ledger, WorkersAwake, ClientsOwed;
    EmptyWhenNoneLive(Run(threads, schedule));
  }

  /** Slot `i`, joinable in `s`, still runs the same thread in `r`, or its own worker ended by `a`. */
  predicate SlotKept<T>(s: Pool<T>, a: Action<T>, r: Pool<T>, i: nat)
    requires i < |s.workers| && s.workers[i].Some?
  {
    var t := s.workers[i].value;
    || (i < |r.workers| && r.workers[i] == Some(t))
    || (a == RunWorker(t) && t < |r.threads| && r.threads[t].pc.Ended?)
  }

  lemma TakeSlot<T(!new)>(s: Pool<T>, w: nat, i: nat)
    requires Slots(s) && w < |s.threads| && s.threads[w].pc.Ready? && i < |s.workers| && s.workers[i].Some?
    ensures SlotKept(s, RunWorker(w), Take(s, w), i)
  {
    DownsizeKeeps(s.workers[s.threads[w].number := None], s.poolSize);
    hide Downsize;
  }

  lemma {:induction false} GrowSlot<T(!new)>(s: Pool<T>, from: nat, to: nat, i: nat)
    requires i < |s.workers| && s.workers[i].Some?
    ensures var r := StartWorkers(s, from, to); i < |r.workers| && r.workers[i] == s.workers[i]
  {
    if from < to { GrowSlot(s, from, to - 1, i); }
  }

  lemma StepSlot<T(!new)>(s: Pool<T>, a: Action<T>, i: nat)
    requires Slots(s) && i < |s.workers| && s.workers[i].Some?
    ensures SlotKept(s, a, Step(s, a), i)
  {
    hide Slots, Take, StartWorkers;
    match a
    case RunWorker(w) => if w < |s.threads| && s.threads[w].pc.Ready? && s.queueMutex.None? { TakeSlot(s, w, i); }
    case CallSetPoolSize(limit) =>
      var size := if limit < 1 then 1 else limit;
      GrowSlot(s.(poolSize := size), s.poolSize, size, i);
    case _ =>
  }

  /** A joinable slot is given up only by the worker that runs in it, when that worker ends: no step
      pops it, overwrites it or detaches it from outside. */
  lemma SlotStays<T(!new)>(threads: nat, schedule: seq<Action<T>>, a: Action<T>, i: nat)
    requires threads >= 1
    requires i < |Run(threads, schedule).workers| && Run(threads, schedule).workers[i].Some?
    ensures SlotKept(Run(threads, schedule), a, Run(threads, schedule + [a]), i)
  {
    hide SlotKept, Step, Slots;
    RunKeeps(threads, schedule);
    StepSlot(Run(threads, schedule), a, i);
    assert (schedule + [a])[..|schedule|] == schedule;
  }

  // ------------------------------------------------------------------ wake-ups

  /** While the pool is not stopped: if tasks are queued, a worker below the target size is awake, and
      as long as any worker sleeps there are as many workers about to look at the queue as tasks in it
      (one less while an enqueue has yet to notify).  Nobody surplus sleeps. */
  lemma WorkersNotLost<T(!new)>(threads: nat, schedule: seq<Action<T>>)
    requires threads >= 1
    ensures var s := Run(threads, schedule);
      && (s.tasks != [] && s.queueMutex.None? && !s.stop ==>
            exists w :: 0 <= w < |s.threads| && s.threads[w].number < s.poolSize && Live(s.threads[w]) && !s.threads[w].pc.Asleep?)
      && (SomeAsleep(s.threads) ==> |s.tasks| <= Sum(s.threads, ReadyBelow(s.poolSize)) + Adding(s))
      && (forall w :: 0 <= w < |s.threads| && s.threads[w].pc.Asleep? ==> !s.stop && s.threads[w].number < s.poolSize)
  {
    RunKeeps(threads, schedule);
    hide Run, Ledger, ClientsOwed;
    var s := Run(threads, schedule);
    if s.tasks != [] && s.queueMutex.None? && !s.stop {
      var first := s.workers[0].value;
      if s.threads[first].pc.Asleep? {
        var w := SumPositive(s.threads, ReadyBelow(s.poolSize));
      } else {
        assert s.threads[first].number < s.poolSize && Live(s.threads[first]);
      }
    }
  }

  /** A client asleep although its condition holds is about to be notified: by a worker that has popped
      a task and not yet notified the producers, or by one between its decrement of in_flight and its
      notify.  No enqueue sleeps after stop, and the destructor sleeps only while a worker is left. */
  lemma ClientsNotLost<T(!new)>(threads: nat, schedule: seq<Action<T>>, c: Client)
    requires threads >= 1 && c in Run(threads, schedule).clients
    ensures var s := Run(threads, schedule);
      && (s.clients[c].EnqueueAsleep? ==> !s.stop && (|s.tasks| < s.maxQueueSize ==> SomeNotify(s.threads)))
      && (s.clients[c].EmptyAsleep? && s.tasks == [] ==> SomeNotify(s.threads))
      && (s.clients[c].FlightAsleep? && s.inFlight == 0 ==> SomeSignal(s.threads))
      && (s.destructor.Sleeping? ==> s.stop && s.workers != [])
  {
    RunKeeps(threads, schedule);
    hide Run, Ledger, WorkersAwake, Sum, Owned;
  }

  // ------------------------------------------------------------------ tasks

  /** in_flight counts the queued tasks and those a worker holds, tasks start in the order they were
      accepted, and each one taken is held by one worker or has run once. */
  lemma TasksAccountedFor<T(!new)>(threads: nat, schedule: seq<Action<T>>)
    requires threads >= 1
    ensures var s := Run(threads, schedule);
      && s.inFlight == |s.tasks| + Sum(s.threads, IsBusy) - Adding(s) >= 0
      && s.accepted == s.taken + s.tasks
      && forall x :: multiset(s.taken)[x] == Sum(s.threads, Holds(x)) + multiset(s.executed)[x]
  {
    RunKeeps(threads, schedule);
    hide Run, WorkersAwake, ClientsOwed, Slots, Sum;
  }

  /** When nobody holds a task, exactly those taken have run. */
  lemma NoneHeld<T(!new)>(s: Pool<T>)
    requires Ledger(s) && Sum(s.threads, IsBusy) == 0
    ensures multiset(s.executed) == multiset(s.taken)
  {
    forall x ensures multiset(s.taken)[x] == multiset(s.executed)[x] {
      SumMonotone(s.threads, Holds(x), s.threads, IsBusy);
    }
    hide Sum;
    assert forall x :: x in multiset(s.taken) <==> multiset(s.taken)[x] > 0;
    assert forall x :: x in multiset(s.executed) <==> multiset(s.executed)[x] > 0;
  }

  /** What wait_until_nothing_in_flight waits for: in_flight is zero exactly when every accepted task
      has run, except one that an enqueue has just emplaced and not yet counted. */
  lemma NothingInFlight<T(!new)>(threads: nat, schedule: seq<Action<T>>)
    requires threads >= 1
    ensures var s := Run(threads, schedule);
      s.inFlight == 0 ==>
        && s.accepted == s.taken + s.tasks && |s.tasks| == Adding(s)
        && multiset(s.executed) == multiset(s.taken)
  {
    RunKeeps(threads, schedule);
    hide Run, WorkersAwake, ClientsOwed, Slots;
    var s := Run(threads, schedule);
    if s.inFlight == 0 {
      NoneHeld(s);
    }
  }

  /** When the destructor returns nothing is in flight, the queue is empty, no worker is left and every
      accepted task has run exactly once. */
  lemma DestructorFinishes<T(!new)>(threads: nat, schedule: seq<Action<T>>)
    requires threads >= 1
    ensures var s := Run(threads, schedule);
      s.destructor.Finished? ==>
        && s.inFlight == 0 && s.tasks == [] && !s.faulty
        && (forall t :: 0 <= t < |s.threads| ==> s.threads[t].pc.Ended?)
        && multiset(s.executed) == multiset(s.accepted)
  {
    RunKeeps(threads, schedule);
    hide Run, WorkersAwake, ClientsOwed;
    var s := Run(threads, schedule);
    if s.destructor.Finished? {
      EmptyWhenNoneLive(s);
      SumZero(s.threads, IsBusy);
      NoneHeld(s);
      assert s.accepted == s.taken;
    }
  }

  // ------------------------------------------------------------------ no deadlock

  predicate CanMove<T>(s: Pool<T>, w: nat) {
    && w < |s.threads| && Live(s.threads[w]) && !s.threads[w].pc.Asleep?
  }

  predicate MutexesFree<T>(s: Pool<T>) { s.queueMutex.None? && s.flightMutex.None? }

  function Weight<T(!new)>(w: Worker<T>): nat {
    match w.pc
    case Ready => 1
    case Asleep => 0
    case Notify(_) => 5
    case Running(_) => 4
    case Decrement => 3
    case Signal => 2
    case Ended => 0
  }

  function Fuel<T(!new)>(s: Pool<T>): nat {
    5 * |s.tasks| + Sum(s.threads, Weight)
  }

  lemma LeaveSpends<T(!new)>(s: Pool<T>, w: nat)
    requires Slots(s) && w < |s.threads| && s.threads[w].pc.Ready?
    ensures Fuel(Leave(s, w)) < Fuel(s) && MutexesFree(s) == MutexesFree(Leave(s, w))
  {
    DetachOwned(s, w);
    hide Sum, Owned, Downsize;
    var left := Detach(s, w);
    SumUpdate(s.threads, w, s.threads[w].(pc := Ended), Weight);
    if left.workers == [] {
      assert forall i :: 0 <= i < |left.threads| ==> left.threads[i].pc.Ended? by {
        assert Slots(left.(destructor := if s.stop then Woken else NotCalled));
        EmptyWhenNoneLive(left.(destructor := if s.stop then Woken else NotCalled));
      }
      assert WakeAll(left.threads) == left.threads;
    }
  }

  lemma TakeSpends<T(!new)>(s: Pool<T>, w: nat)
    requires Slots(s) && w < |s.threads| && s.threads[w].pc.Ready?
    requires s.stop || s.tasks != [] || s.poolSize < s.threads[w].number + 1 || s.threads[w].number < s.poolSize
    ensures Fuel(Take(s, w)) < Fuel(s) && MutexesFree(Take(s, w)) == MutexesFree(s)
  {
    hide Sum, Owned, Leave, FilledBelow;
    LeaveSpends(s, w);
    SumUpdate(s.threads, w, s.threads[w].(pc := Asleep), Weight);
    if s.tasks != [] {
      SumUpdate(s.threads, w, s.threads[w].(pc := Notify(s.tasks[0])), Weight);
      SumUpdate(s.threads, w, s.threads[w].(pc := Running(s.tasks[0])), Weight);
    }
  }

  /** A step of a worker that is awake brings the pool nearer to rest. */
  lemma WorkerSpends<T(!new)>(s: Pool<T>, w: nat)
    requires Inv(s) && MutexesFree(s) && CanMove(s, w)
    ensures Fuel(WorkerStep(s, w)) < Fuel(s) && MutexesFree(WorkerStep(s, w))
  {
    hide Sum, Owned, Take, SomeAsleep, Slots, Ledger, ClientsOwed, WorkersAwake;
    if s.threads[w].pc.Ready? {
      TakeSpends(s, w);
    } else {
      SumUpdate(s.threads, w, WorkerStep(s, w).threads[w], Weight);
    }
  }

  function RunWorkers<T>(s: Pool<T>, ws: seq<nat>): Pool<T> {
    if ws == [] then s
    else var r := RunWorkers(s, ws[..|ws| - 1]); if ws[|ws| - 1] < |r.threads| then WorkerStep(r, ws[|ws| - 1]) else r
  }

  ghost predicate AllMove<T>(s: Pool<T>, ws: seq<nat>) {
    forall k :: 0 <= k < |ws| ==> CanMove(RunWorkers(s, ws[..k]), ws[k])
  }

  lemma {:induction false} RunWorkersSpend<T(!new)>(s: Pool<T>, ws: seq<nat>)
    requires Inv(s) && MutexesFree(s) && AllMove(s, ws)
    ensures var r := RunWorkers(s, ws); Inv(r) && MutexesFree(r) && Fuel(r) + |ws| <= Fuel(s)
  {
    hide Inv, MutexesFree, WorkerStep, Fuel, CanMove;
    if ws != [] {
      var n := |ws| - 1;
      assert CanMove(RunWorkers(s, ws[..n]), ws[n]);
      assert forall k :: 0 <= k < n ==> ws[..n][..k] == ws[..k];
      RunWorkersSpend(s, ws[..n]);
      WorkerSpends(RunWorkers(s, ws[..n]), ws[n]);
      assert ws[n] < |RunWorkers(s, ws[..n]).threads| by { MovingWorker(RunWorkers(s, ws[..n]), ws[n]); }
      WorkerKeeps(RunWorkers(s, ws[..n]), ws[n]);
    }
  }

  lemma MovingWorker<T(!new)>(s: Pool<T>, w: nat)
    requires CanMove(s, w)
    ensures w < |s.threads|
  {
  }

  /** No worker can move: then there is nothing to do and nobody to wake. */
  lemma AtRest<T(!new)>(s: Pool<T>)
    requires Inv(s) && MutexesFree(s) && forall w :: 0 <= w < |s.threads| ==> !CanMove(s, w)
    ensures s.tasks == [] && s.inFlight == 0 && multiset(s.executed) == multiset(s.accepted)
    ensures !SomeEnqueueAsleep(s.clients) && !SomeEmptyAsleep(s.clients) && !SomeFlightWaiting(s.clients)
    ensures s.stop ==> s.workers == [] && !s.destructor.Sleeping?
  {
    assert forall w :: 0 <= w < |s.threads| ==> s.threads[w].pc.Asleep? || s.threads[w].pc.Ended? by {
      forall w | 0 <= w < |s.threads| ensures s.threads[w].pc.Asleep? || s.threads[w].pc.Ended? { assert !CanMove(s, w); }
    }
    SumZero(s.threads, IsBusy);
    SumZero(s.threads, ReadyBelow(s.poolSize));
    NoneHeld(s);
    NothingQueued(s);
    hide Sum, Owned, SomeEnqueueAsleep, SomeEmptyAsleep, SomeFlightWaiting;
    assert s.accepted == s.taken;
  }

  lemma NothingQueued<T(!new)>(s: Pool<T>)
    requires Inv(s) && s.queueMutex.None? && Sum(s.threads, ReadyBelow(s.poolSize)) == 0
    requires forall w :: 0 <= w < |s.threads| ==> s.threads[w].pc.Asleep? || s.threads[w].pc.Ended?
    ensures s.tasks == [] && (s.stop ==> s.workers == [])
  {
    hide Sum;
    EmptyWhenNoneLive(s);
    if !s.stop { assert s.threads[s.workers[0].value].pc.Asleep?; }
  }

  /** No deadlock.  Whatever the run so far, once the clients stop calling, the awake workers in any
      order make at most Fuel steps before none can move; then the queue is empty, every accepted task
      has run exactly once, and no enqueue, no wait_until_empty, no wait_until_nothing_in_flight and no
      destructor is left asleep. */
  lemma Drains<T(!new)>(threads: nat, schedule: seq<Action<T>>, ws: seq<nat>)
    requires threads >= 1
    requires MutexesFree(Run(threads, schedule)) && AllMove(Run(threads, schedule), ws)
    ensures |ws| <= Fuel(Run(threads, schedule))
    ensures var r := RunWorkers(Run(threads, schedule), ws);
      (forall w :: 0 <= w < |r.threads| ==> !CanMove(r, w)) ==>
        && r.tasks == [] && r.inFlight == 0 && multiset(r.executed) == multiset(r.accepted)
        && !SomeEnqueueAsleep(r.clients) && !SomeEmptyAsleep(r.clients) && !SomeFlightWaiting(r.clients)
        && (r.stop ==> r.workers == [] && !r.destructor.Sleeping?)
  {
    hide *;
    RunKeeps(threads, schedule);
    RunWorkersSpend(Run(threads, schedule), ws);
    var r := RunWorkers(Run(threads, schedule), ws);
    if forall w :: 0 <= w < |r.threads| ==> !CanMove(r, w) { AtRest(r); }
  }

  // ------------------------------------------------------------------ a pool of no threads

  /** A task, then the destructor: with no worker to run it the assert of line 137 fails. */
  function NobodyWorks<T>(task: T): seq<Action<T>> {
    [CallEnqueue(0, task), RunClient(0, 0), RunClient(0, 0), CallDestructor]
  }

  lemma ZeroThreadsFail<T(!new)>(task: T)
    ensures Run(0, NobodyWorks(task)).faulty
  {
    var a := NobodyWorks(task);
    var s0 := Fresh<T>(0);
    var s1, s2 := Step(s0, a[0]), Step(Step(s0, a[0]), a[1]);
    assert a[..4][..3] == a[..3] && a[..3][..2] == a[..2] && a[..2][..1] == a[..1] && a[..1][..0] == [];
    assert a[..4] == a;
    assert Run(0, a[..0]) == s0 && Run(0, a[..1]) == s1 && Run(0, a[..2]) == s2;
    assert s2.tasks == [task];
  }

  /** The pool keeps its asserts on every run exactly when it is built with at least one thread. */
  lemma CorrectUnlessEmpty<T(!new)>(threads: nat, task: T)
    ensures (forall schedule: seq<Action<T>> :: !Run(threads, schedule).faulty) <==> threads >= 1
  {
    hide Run, NobodyWorks, Inv;
    if threads == 0 {
      ZeroThreadsFail(task);
    } else {
      forall schedule: seq<Action<T>> ensures !Run(threads, schedule).faulty { WorkerSlots(threads, schedule); }
    }
  }
}
