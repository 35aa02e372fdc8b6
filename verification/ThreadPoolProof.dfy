/** The invariant of the thread pool and its proof, step by step. */
module ThreadPoolProof {
  import opened Options
  import opened ThreadPool

  // ------------------------------------------------------------------ sums over workers

  function Sum<T(!new)>(ws: seq<Worker<T>>, f: Worker<T> -> nat): nat {
    if ws == [] then 0 else Sum(ws[..|ws| - 1], f) + f(ws[|ws| - 1])
  }

  lemma {:induction false} SumUpdate<T(!new)>(ws: seq<Worker<T>>, i: nat, w: Worker<T>, f: Worker<T> -> nat)
    requires i < |ws|
    ensures Sum(ws[i := w], f) + f(ws[i]) == Sum(ws, f) + f(w)
  {
    var n := |ws| - 1;
    if i == n {
      assert ws[i := w][..n] == ws[..n];
    } else {
      assert ws[i := w][..n] == ws[..n][i := w];
      SumUpdate(ws[..n], i, w, f);
    }
  }

  lemma {:induction false} SumZero<T(!new)>(ws: seq<Worker<T>>, f: Worker<T> -> nat)
    requires forall i :: 0 <= i < |ws| ==> f(ws[i]) == 0
    ensures Sum(ws, f) == 0
  {
    if ws != [] { SumZero(ws[..|ws| - 1], f); }
  }

  lemma {:induction false} SumPositive<T(!new)>(ws: seq<Worker<T>>, f: Worker<T> -> nat) returns (i: nat)
    requires Sum(ws, f) > 0
    ensures i < |ws| && f(ws[i]) > 0
  {
    i := |ws| - 1;
    if f(ws[i]) == 0 { i := SumPositive(ws[..i], f); }
  }

  /** `f` at every position of `ws` is at most `g` at that position of `vs`. */
  lemma {:induction false} SumMonotone<T(!new)>(ws: seq<Worker<T>>, f: Worker<T> -> nat, vs: seq<Worker<T>>, g: Worker<T> -> nat)
    requires |ws| <= |vs|
    requires forall i :: 0 <= i < |ws| ==> f(ws[i]) <= g(vs[i])
    ensures Sum(ws, f) <= Sum(vs, g)
  {
    if |ws| < |vs| {
      SumMonotone(ws, f, vs[..|vs| - 1], g);
    } else if ws != [] {
      SumMonotone(ws[..|ws| - 1], f, vs[..|vs| - 1], g);
    }
  }

  /** Workers that count in `in_flight`. */
  function IsBusy<T(!new)>(w: Worker<T>): nat {
    if w.pc.Notify? || w.pc.Running? || w.pc.Decrement? then 1 else 0
  }

  /** Workers that hold task `x` and have not run it. */
  function Holds<T(!new,==)>(x: T): Worker<T> -> nat {
    (w: Worker<T>) => if (w.pc.Notify? || w.pc.Running?) && w.pc.task == x then 1 else 0
  }

  /** Workers about to test the wait condition, with a number below `poolSize`. */
  function ReadyBelow<T(!new)>(poolSize: nat): Worker<T> -> nat {
    (w: Worker<T>) => if w.pc.Ready? && w.number < poolSize then 1 else 0
  }

  // ------------------------------------------------------------------ the invariant

  predicate Live<T>(w: Worker<T>) { !w.pc.Ended? }

  /** Each live worker owns the slot of its number, each joinable slot runs a live worker, and the last
      slot beyond the target size is joinable. */
  ghost predicate Owned<T>(workers: seq<Option<nat>>, poolSize: nat, threads: seq<Worker<T>>) {
    && (forall w :: 0 <= w < |threads| && Live(threads[w]) ==>
          threads[w].number < |workers| && workers[threads[w].number] == Some(w))
    && (forall i :: 0 <= i < |workers| && workers[i].Some? ==>
          && workers[i].value < |threads|
          && threads[workers[i].value].number == i
          && Live(threads[workers[i].value]))
    && (|workers| > poolSize ==> workers[|workers| - 1].Some?)
  }

  ghost predicate FilledBelow(workers: seq<Option<nat>>, n: nat) {
    n <= |workers| && forall i :: 0 <= i < n ==> workers[i].Some?
  }

  ghost predicate Slots<T>(s: Pool<T>) {
    && Owned(s.workers, s.poolSize, s.threads)
    && !s.faulty
    && (s.stop <==> !s.destructor.NotCalled?)
    && (!s.stop ==> s.poolSize >= 1 && FilledBelow(s.workers, s.poolSize))
    && (s.stop ==> s.poolSize == 0)
    && (s.destructor.Sleeping? ==> s.workers != [])
    && (s.destructor.Finished? ==> s.workers == [])
  }

  function Adding<T>(s: Pool<T>): nat { if s.queueMutex.Some? then 1 else 0 }

  /** in_flight counts the queued tasks and those held by workers, except a task just emplaced; tasks
      are taken in the order accepted, and every task taken is either held by one worker or has run. */
  ghost predicate Ledger<T(!new)>(s: Pool<T>) {
    && s.inFlight == |s.tasks| + Sum(s.threads, IsBusy) - Adding(s)
    && s.accepted == s.taken + s.tasks
    && (forall x :: multiset(s.taken)[x] == Sum(s.threads, Holds(x)) + multiset(s.executed)[x])
    && (s.workers == [] ==> s.tasks == [])
    && (s.queueMutex.Some? ==> !s.stop && s.tasks != [])
  }

  predicate SomeNotify<T>(ws: seq<Worker<T>>) { exists w :: 0 <= w < |ws| && ws[w].pc.Notify? }

  predicate SomeSignal<T>(ws: seq<Worker<T>>) { exists w :: 0 <= w < |ws| && ws[w].pc.Signal? }

  predicate SomeEnqueueAsleep<T>(clients: map<Client, ClientPc<T>>) {
    exists c :: c in clients && clients[c].EnqueueAsleep?
  }

  predicate SomeEmptyAsleep<T>(clients: map<Client, ClientPc<T>>) {
    exists c :: c in clients && clients[c].EmptyAsleep?
  }

  predicate SomeFlightWaiting<T>(clients: map<Client, ClientPc<T>>) {
    exists c :: c in clients && (clients[c].FlightAsleep? || clients[c].FlightChecked?)
  }

  /** The holder of a mutex between two steps is the one client at that point. */
  ghost predicate Holders<T>(clients: map<Client, ClientPc<T>>, queueMutex: Option<Client>, flightMutex: Option<Client>) {
    forall c ::
      && (c in clients && clients[c].EnqueueAdded? <==> queueMutex == Some(c))
      && (c in clients && clients[c].FlightChecked? <==> flightMutex == Some(c))
  }

  /** Sleepers among the workers: all below the target size, none after stop, and while one sleeps
      there are at least as many workers about to look at the queue as there are tasks in it. */
  ghost predicate WorkersAwake<T(!new)>(s: Pool<T>) {
    && (forall w :: 0 <= w < |s.threads| && s.threads[w].pc.Asleep? ==> !s.stop && s.threads[w].number < s.poolSize)
    && (SomeAsleep(s.threads) ==> |s.tasks| <= Sum(s.threads, ReadyBelow(s.poolSize)) + Adding(s))
  }

  /** A client asleep although its condition holds is owed a notification. */
  ghost predicate ClientsOwed<T>(s: Pool<T>) {
    && s.maxQueueSize >= 1
    && Holders(s.clients, s.queueMutex, s.flightMutex)
    && (SomeEnqueueAsleep(s.clients) ==> !s.stop && (|s.tasks| < s.maxQueueSize ==> SomeNotify(s.threads)))
    && (SomeEmptyAsleep(s.clients) && s.tasks == [] ==> SomeNotify(s.threads))
    && (SomeFlightWaiting(s.clients) && s.inFlight == 0 ==> SomeSignal(s.threads))
  }

  ghost predicate Inv<T(!new)>(s: Pool<T>) {
    Slots(s) && Ledger(s) && WorkersAwake(s) && ClientsOwed(s)
  }

  // ------------------------------------------------------------------ changing one client

  /** A client that moves to `pc` adds no sleeper unless that is a place to sleep. */
  lemma ClientSet<T>(clients: map<Client, ClientPc<T>>, c: Client, pc: ClientPc<T>)
    ensures var after := clients[c := pc];
      && (SomeEnqueueAsleep(after) ==> SomeEnqueueAsleep(clients) || pc.EnqueueAsleep?)
      && (SomeEmptyAsleep(after) ==> SomeEmptyAsleep(clients) || pc.EmptyAsleep?)
      && (SomeFlightWaiting(after) ==> SomeFlightWaiting(clients) || pc.FlightAsleep? || pc.FlightChecked?)
  {
  }

  lemma ClientGone<T>(clients: map<Client, ClientPc<T>>, c: Client)
    ensures var after := clients - {c};
      && (SomeEnqueueAsleep(after) ==> SomeEnqueueAsleep(clients))
      && (SomeEmptyAsleep(after) ==> SomeEmptyAsleep(clients))
      && (SomeFlightWaiting(after) ==> SomeFlightWaiting(clients))
  {
  }

  /** The mutexes stay with their holders, the moving client gives up those it held and gets those of its
      new place. */
  lemma HoldersSet<T>(clients: map<Client, ClientPc<T>>, qm: Option<Client>, fm: Option<Client>, c: Client, pc: ClientPc<T>)
    requires Holders(clients, qm, fm)
    requires pc.EnqueueAdded? ==> qm.None? || qm == Some(c)
    requires pc.FlightChecked? ==> fm.None? || fm == Some(c)
    ensures Holders(clients[c := pc], if pc.EnqueueAdded? then Some(c) else if qm == Some(c) then None else qm,
                    if pc.FlightChecked? then Some(c) else if fm == Some(c) then None else fm)
  {
  }

  lemma HoldersGone<T>(clients: map<Client, ClientPc<T>>, qm: Option<Client>, fm: Option<Client>, c: Client)
    requires Holders(clients, qm, fm)
    ensures Holders(clients - {c}, if qm == Some(c) then None else qm, if fm == Some(c) then None else fm)
  {
  }

  lemma HoldersAt<T>(clients: map<Client, ClientPc<T>>, qm: Option<Client>, fm: Option<Client>, c: Client)
    requires Holders(clients, qm, fm)
    ensures (c in clients && clients[c].EnqueueAdded? <==> qm == Some(c)) && (c in clients && clients[c].FlightChecked? <==> fm == Some(c))
  {
  }

  // ------------------------------------------------------------------ changing one worker

  /** What moving worker `w` to `pc` does to the sums. */
  lemma SetPcSums<T(!new)>(s: Pool<T>, w: nat, pc: Pc<T>)
    requires w < |s.threads|
    ensures var was, now, ws := s.threads[w], s.threads[w].(pc := pc), SetPc(s, w, pc).threads;
      && Sum(ws, IsBusy) + IsBusy(was) == Sum(s.threads, IsBusy) + IsBusy(now)
      && (forall x :: Sum(ws, Holds(x)) + Holds(x)(was) == Sum(s.threads, Holds(x)) + Holds(x)(now))
      && (forall n: nat :: Sum(ws, ReadyBelow(n)) + ReadyBelow<T>(n)(was) == Sum(s.threads, ReadyBelow(n)) + ReadyBelow<T>(n)(now))
  {
    hide Sum;
    var now := s.threads[w].(pc := pc);
    SumUpdate(s.threads, w, now, IsBusy);
    forall x ensures Sum(s.threads[w := now], Holds(x)) + Holds(x)(s.threads[w]) == Sum(s.threads, Holds(x)) + Holds(x)(now) {
      SumUpdate(s.threads, w, now, Holds(x));
    }
    forall n: nat ensures Sum(s.threads[w := now], ReadyBelow(n)) + ReadyBelow<T>(n)(s.threads[w]) == Sum(s.threads, ReadyBelow(n)) + ReadyBelow<T>(n)(now) {
      SumUpdate(s.threads, w, now, ReadyBelow(n));
    }
  }

  /** Another worker's debt stays when `w` moves. */
  lemma DebtsStay<T(!new)>(s: Pool<T>, w: nat, pc: Pc<T>)
    requires w < |s.threads|
    ensures var ws := SetPc(s, w, pc).threads;
      && (pc.Notify? || (SomeNotify(s.threads) && !s.threads[w].pc.Notify?) ==> SomeNotify(ws))
      && (pc.Signal? || (SomeSignal(s.threads) && !s.threads[w].pc.Signal?) ==> SomeSignal(ws))
      && (SomeAsleep(ws) && !pc.Asleep? ==> SomeAsleep(s.threads))
  {
    var ws := SetPc(s, w, pc).threads;
    assert ws[w].pc == pc;
    if SomeNotify(s.threads) {
      var v :| 0 <= v < |s.threads| && s.threads[v].pc.Notify?;
      assert v != w ==> ws[v] == s.threads[v];
    }
    if SomeSignal(s.threads) {
      var v :| 0 <= v < |s.threads| && s.threads[v].pc.Signal?;
      assert v != w ==> ws[v] == s.threads[v];
    }
  }

  lemma {:induction false} DownsizeKeeps(workers: seq<Option<nat>>, poolSize: nat)
    ensures Downsize(workers, poolSize) <= workers
    ensures forall i :: |Downsize(workers, poolSize)| <= i < |workers| ==> workers[i].None?
    ensures var left := Downsize(workers, poolSize);
      && (|left| > poolSize ==> left[|left| - 1].Some?)
      && (|workers| >= poolSize ==> |left| >= poolSize)
  {
    var n := |workers| - 1;
    if n >= poolSize && workers[n].None? {
      DownsizeKeeps(workers[..n], poolSize);
      forall i | |Downsize(workers, poolSize)| <= i < |workers| ensures workers[i].None? {
        if i < n { assert workers[i] == workers[..n][i]; }
      }
    }
  }

  // ------------------------------------------------------------------ notifying

  lemma {:induction false} SumWake<T(!new)>(ws: seq<Worker<T>>, f: Worker<T> -> nat)
    requires forall w :: f(Wake(w)) == f(w)
    ensures Sum(WakeAll(ws), f) == Sum(ws, f)
  {
    if ws != [] {
      SumWake(ws[..|ws| - 1], f);
      assert WakeAll(ws)[..|ws| - 1] == WakeAll(ws[..|ws| - 1]);
    }
  }

  lemma WakeSums<T(!new)>(ws: seq<Worker<T>>)
    ensures Sum(WakeAll(ws), IsBusy) == Sum(ws, IsBusy)
    ensures forall x :: Sum(WakeAll(ws), Holds(x)) == Sum(ws, Holds(x))
  {
    hide Sum, WakeAll;
    SumWake(ws, IsBusy);
    forall x ensures Sum(WakeAll(ws), Holds(x)) == Sum(ws, Holds(x)) { SumWake(ws, Holds(x)); }
  }

  lemma NotifyConsumersOwned<T(!new)>(s: Pool<T>)
    requires Owned(s.workers, s.poolSize, s.threads)
    ensures Owned(s.workers, s.poolSize, WakeAll(s.threads)) && WorkersAwake(NotifyConsumers(s))
  {
    hide WakeAll;
  }

  lemma NotifyConsumersLedger<T(!new)>(s: Pool<T>)
    requires Ledger(s)
    ensures Ledger(NotifyConsumers(s))
  {
    hide WakeAll, Sum;
    WakeSums(s.threads);
  }

  lemma NotifyConsumersOwed<T(!new)>(s: Pool<T>)
    requires ClientsOwed(s)
    ensures ClientsOwed(NotifyConsumers(s))
  {
    hide WakeAll;
    var n := NotifyConsumers(s);
    if w :| 0 <= w < |s.threads| && s.threads[w].pc.Notify? { assert n.threads[w].pc.Notify?; }
    if w :| 0 <= w < |s.threads| && s.threads[w].pc.Signal? { assert n.threads[w].pc.Signal?; }
  }

  lemma NotifyConsumersKeeps<T(!new)>(s: Pool<T>)
    requires Owned(s.workers, s.poolSize, s.threads) && Ledger(s) && ClientsOwed(s)
    ensures var n := NotifyConsumers(s); Owned(n.workers, n.poolSize, n.threads) && Ledger(n) && ClientsOwed(n) && WorkersAwake(n)
  {
    NotifyConsumersOwned(s);
    NotifyConsumersLedger(s);
    NotifyConsumersOwed(s);
  }

  // ------------------------------------------------------------------ the worker's section

  lemma SleepKeeps<T(!new)>(s: Pool<T>, w: nat)
    requires Inv(s) && w < |s.threads| && s.threads[w].pc.Ready? && s.queueMutex.None?
    requires !s.stop && s.tasks == [] && s.threads[w].number < s.poolSize
    ensures Inv(SetPc(s, w, Asleep))
  {
    hide Sum, SomeNotify, SomeSignal, SomeAsleep, Owned, FilledBelow, SomeEnqueueAsleep, SomeEmptyAsleep, SomeFlightWaiting, Holders;
    SetPcOwned(s, w, Asleep);
    SetPcSums(s, w, Asleep);
    DebtsStay(s, w, Asleep);
  }

  /** A worker that leaves finds its own thread in its slot. */
  lemma DetachOwned<T(!new)>(s: Pool<T>, w: nat)
    requires Slots(s) && w < |s.threads| && s.threads[w].pc.Ready?
    ensures var slot := s.threads[w].number;
      && slot < |s.workers| && s.workers[slot] == Some(w)
      && Owned(Detach(s, w).workers, s.poolSize, Detach(s, w).threads)
      && (!s.stop && slot >= s.poolSize ==> FilledBelow(Detach(s, w).workers, s.poolSize))
  {
    hide Downsize;
    SlotDetached(s.workers, s.poolSize, s.threads, w);
    if !s.stop && s.threads[w].number >= s.poolSize { SlotsBelow(s.workers, s.poolSize, s.threads[w].number); }
    hide Owned, FilledBelow;
  }

  lemma SlotsBelow(workers: seq<Option<nat>>, n: nat, slot: nat)
    requires FilledBelow(workers, n) && n <= slot < |workers|
    ensures FilledBelow(Downsize(workers[slot := None], n), n)
  {
    DownsizeKeeps(workers[slot := None], n);
    hide Downsize;
  }

  /** Giving up the slot of a worker that ends. */
  lemma SlotDetached<T(!new)>(workers: seq<Option<nat>>, poolSize: nat, threads: seq<Worker<T>>, w: nat)
    requires Owned(workers, poolSize, threads) && w < |threads| && Live(threads[w])
    ensures var slot := threads[w].number;
      && slot < |workers| && workers[slot] == Some(w)
      && Owned(Downsize(workers[slot := None], poolSize), poolSize, threads[w := threads[w].(pc := Ended)])
  {
    DownsizeKeeps(workers[threads[w].number := None], poolSize);
    hide Downsize;
    var slot := threads[w].number;
    var left, ended := Downsize(workers[slot := None], poolSize), threads[w := threads[w].(pc := Ended)];
    forall v | 0 <= v < |ended| && Live(ended[v]) ensures ended[v].number < |left| && left[ended[v].number] == Some(v) {
      assert threads[v].number != slot;
    }
  }

  /** Once `stop` is set the vector is empty when no worker is live, and the other way round. */
  lemma EmptyWhenNoneLive<T(!new)>(s: Pool<T>)
    requires Slots(s)
    ensures s.workers == [] ==> forall w :: 0 <= w < |s.threads| ==> s.threads[w].pc.Ended?
    ensures s.stop && (forall w :: 0 <= w < |s.threads| ==> s.threads[w].pc.Ended?) ==> s.workers == []
  {
    if s.stop && s.workers != [] {
      assert Live(s.threads[s.workers[|s.workers| - 1].value]);
    }
  }

  lemma DetachFrame<T(!new)>(s: Pool<T>, w: nat)
    requires w < |s.threads| && s.threads[w].number < |s.workers|
    ensures var left := Detach(s, w);
      left == s.(workers := left.workers, threads := left.threads)
  {
  }

  /** The parts of the invariant that do not look at the worker vector, when `w` gives up its slot. */
  lemma DetachRest<T(!new)>(s: Pool<T>, w: nat)
    requires Inv(s) && w < |s.threads| && s.threads[w].pc.Ready? && s.threads[w].number < |s.workers|
    requires if s.stop then s.tasks == [] else s.threads[w].number >= s.poolSize
    ensures var left := Detach(s, w);
      && WorkersAwake(left) && ClientsOwed(left)
      && (s.stop || left.workers != [] ==> Ledger(left))
  {
    hide Sum, Downsize, Owned, SomeNotify, SomeSignal, SomeAsleep;
    var detached := s.(workers := Detach(s, w).workers);
    SetPcSums(detached, w, Ended);
    DebtsStay(detached, w, Ended);
  }

  lemma LeaveKeeps<T(!new)>(s: Pool<T>, w: nat)
    requires Inv(s) && w < |s.threads| && s.threads[w].pc.Ready? && s.queueMutex.None?
    requires if s.stop then s.tasks == [] else s.threads[w].number >= s.poolSize
    ensures Inv(Leave(s, w))
  {
    DetachOwned(s, w);
    DetachRest(s, w);
    hide Sum, Owned, Detach, Ledger, WorkersAwake, ClientsOwed;
    var left := Detach(s, w);
    DetachFrame(s, w);
    if left.workers == [] { NotifyConsumersKeeps(left); }
  }

  /** Moving a worker that stays live keeps every slot owned. */
  lemma SetPcOwned<T(!new)>(s: Pool<T>, w: nat, pc: Pc<T>)
    requires Slots(s) && w < |s.threads| && Live(s.threads[w]) && !pc.Ended?
    ensures Slots(SetPc(s, w, pc))
  {
  }

  lemma PopLedger<T(!new)>(s: Pool<T>, w: nat)
    requires Ledger(s) && w < |s.threads| && s.threads[w].pc.Ready? && s.queueMutex.None?
    requires s.tasks != [] && (s.stop || s.threads[w].number < s.poolSize)
    ensures Ledger(Take(s, w))
  {
    hide Sum;
    var popped := s.(tasks := s.tasks[1..], taken := s.taken + [s.tasks[0]]);
    SetPcSums(popped, w, Take(s, w).threads[w].pc);
  }

  lemma PopAwake<T(!new)>(s: Pool<T>, w: nat)
    requires WorkersAwake(s) && w < |s.threads| && s.threads[w].pc.Ready? && s.queueMutex.None?
    requires s.tasks != [] && (s.stop || s.threads[w].number < s.poolSize)
    ensures WorkersAwake(Take(s, w))
  {
    hide Sum, SomeAsleep, SomeNotify, SomeSignal;
    var popped := s.(tasks := s.tasks[1..], taken := s.taken + [s.tasks[0]]);
    SetPcSums(popped, w, Take(s, w).threads[w].pc);
    DebtsStay(popped, w, Take(s, w).threads[w].pc);
  }

  /** The test of lines 235-236 leaves no sleeping client without a wake-up. */
  lemma PopOwed<T(!new)>(s: Pool<T>, w: nat)
    requires ClientsOwed(s) && w < |s.threads| && s.threads[w].pc.Ready?
    requires s.tasks != [] && (s.stop || s.threads[w].number < s.poolSize)
    ensures ClientsOwed(Take(s, w))
  {
    hide SomeNotify, SomeSignal, SomeAsleep, SomeEnqueueAsleep, SomeEmptyAsleep, SomeFlightWaiting, Holders;
    var popped := s.(tasks := s.tasks[1..], taken := s.taken + [s.tasks[0]]);
    DebtsStay(popped, w, Take(s, w).threads[w].pc);
  }

  lemma PopKeeps<T(!new)>(s: Pool<T>, w: nat)
    requires Inv(s) && w < |s.threads| && s.threads[w].pc.Ready? && s.queueMutex.None?
    requires s.tasks != [] && (s.stop || s.threads[w].number < s.poolSize)
    ensures Inv(Take(s, w))
  {
    hide Slots, Ledger, WorkersAwake, ClientsOwed;
    PopLedger(s, w);
    PopAwake(s, w);
    PopOwed(s, w);
    PopSlots(s, w);
    hide Take;
  }

  lemma PopSlots<T(!new)>(s: Pool<T>, w: nat)
    requires Slots(s) && w < |s.threads| && s.threads[w].pc.Ready?
    requires s.tasks != [] && (s.stop || s.threads[w].number < s.poolSize)
    ensures Slots(Take(s, w))
  {
    hide Owned, FilledBelow;
    SetPcOwned(s.(tasks := s.tasks[1..], taken := s.taken + [s.tasks[0]]), w, Take(s, w).threads[w].pc);
  }

  lemma TakeKeeps<T(!new)>(s: Pool<T>, w: nat)
    requires Inv(s) && w < |s.threads| && s.threads[w].pc.Ready? && s.queueMutex.None?
    ensures Inv(Take(s, w))
  {
    hide Slots, Ledger, WorkersAwake, ClientsOwed, SetPc, Leave;
    if !(s.stop || s.tasks != [] || s.poolSize < s.threads[w].number + 1) {
      SleepKeeps(s, w);
    } else if (s.stop && s.tasks == []) || (!s.stop && s.poolSize < s.threads[w].number + 1) {
      LeaveKeeps(s, w);
    } else {
      PopKeeps(s, w);
    }
  }

  // ------------------------------------------------------------------ the worker's other steps

  /** After a notify_all no producer and no wait_until_empty is asleep. */
  lemma NotifyKeeps<T(!new)>(s: Pool<T>, w: nat)
    requires Inv(s) && w < |s.threads| && s.threads[w].pc.Notify? && s.queueMutex.None?
    ensures Inv(WorkerStep(s, w))
  {
    hide Sum, SomeNotify, SomeSignal, SomeAsleep, Owned, FilledBelow, SomeEnqueueAsleep, SomeEmptyAsleep, SomeFlightWaiting, Holders;
    var pc := Running(s.threads[w].pc.task);
    SetPcOwned(s, w, pc);
    SetPcSums(s, w, pc);
    DebtsStay(s, w, pc);
    hide NotifyProducers;
    ProducersWoken(SetPc(s, w, pc));
  }

  /** After condition_producers.notify_all() nobody sleeps there, and nothing else has changed. */
  lemma ProducersWoken<T(!new)>(s: Pool<T>)
    ensures var n := NotifyProducers(s);
      && n == s.(clients := n.clients)
      && !SomeEnqueueAsleep(n.clients) && !SomeEmptyAsleep(n.clients)
      && (SomeFlightWaiting(n.clients) ==> SomeFlightWaiting(s.clients))
      && (Holders(s.clients, s.queueMutex, s.flightMutex) ==> Holders(n.clients, s.queueMutex, s.flightMutex))
  {
  }

  /** After in_flight_condition.notify_all() only a client that holds the mutex waits for it. */
  lemma FlightWoken<T(!new)>(s: Pool<T>)
    requires s.flightMutex.None? && Holders(s.clients, s.queueMutex, s.flightMutex)
    ensures var n := NotifyFlight(s);
      && n == s.(clients := n.clients)
      && (SomeEnqueueAsleep(n.clients) ==> SomeEnqueueAsleep(s.clients)) && (SomeEmptyAsleep(n.clients) ==> SomeEmptyAsleep(s.clients))
      && !SomeFlightWaiting(n.clients)
      && Holders(n.clients, s.queueMutex, s.flightMutex)
  {
  }

  lemma RunningKeeps<T(!new)>(s: Pool<T>, w: nat)
    requires Inv(s) && w < |s.threads| && s.threads[w].pc.Running?
    ensures Inv(WorkerStep(s, w))
  {
    hide Sum, SomeNotify, SomeSignal, SomeAsleep, Owned, FilledBelow, SomeEnqueueAsleep, SomeEmptyAsleep, SomeFlightWaiting, Holders;
    SetPcOwned(s, w, Decrement);
    SetPcSums(s, w, Decrement);
    DebtsStay(s, w, Decrement);
  }

  lemma DecrementKeeps<T(!new)>(s: Pool<T>, w: nat)
    requires Inv(s) && w < |s.threads| && s.threads[w].pc.Decrement?
    ensures Inv(WorkerStep(s, w))
  {
    hide Sum, SomeNotify, SomeSignal, SomeAsleep, Owned, FilledBelow, SomeEnqueueAsleep, SomeEmptyAsleep, SomeFlightWaiting, Holders;
    var pc := WorkerStep(s, w).threads[w].pc;
    SetPcOwned(s, w, pc);
    SetPcSums(s, w, pc);
    DebtsStay(s, w, pc);
  }

  lemma SignalKeeps<T(!new)>(s: Pool<T>, w: nat)
    requires Inv(s) && w < |s.threads| && s.threads[w].pc.Signal? && s.flightMutex.None?
    ensures Inv(WorkerStep(s, w))
  {
    hide Sum, SomeNotify, SomeSignal, SomeAsleep, Owned, FilledBelow, SomeEnqueueAsleep, SomeEmptyAsleep, SomeFlightWaiting, Holders;
    SetPcOwned(s, w, Ready);
    SetPcSums(s, w, Ready);
    DebtsStay(s, w, Ready);
    hide NotifyFlight;
    FlightWoken(SetPc(s, w, Ready));
  }

  lemma WorkerKeeps<T(!new)>(s: Pool<T>, w: nat)
    requires Inv(s) && w < |s.threads|
    ensures Inv(WorkerStep(s, w))
  {
    hide Slots, Ledger, WorkersAwake, ClientsOwed, SetPc, Take;
    match s.threads[w].pc
    case Ready => if s.queueMutex.None? { TakeKeeps(s, w); }
    case Asleep =>
    case Notify(_) => if s.queueMutex.None? { NotifyKeeps(s, w); }
    case Running(_) => RunningKeeps(s, w);
    case Decrement => DecrementKeeps(s, w);
    case Signal => if s.flightMutex.None? { SignalKeeps(s, w); }
    case Ended =>
  }

  lemma WakeWorkerKeeps<T(!new)>(s: Pool<T>, w: nat)
    requires Inv(s) && w < |s.threads| && s.threads[w].pc.Asleep?
    ensures Inv(SetPc(s, w, Ready))
  {
    hide Sum, SomeNotify, SomeSignal, SomeAsleep, Owned, FilledBelow, SomeEnqueueAsleep, SomeEmptyAsleep, SomeFlightWaiting, Holders;
    SetPcOwned(s, w, Ready);
    SetPcSums(s, w, Ready);
    DebtsStay(s, w, Ready);
  }

  // ------------------------------------------------------------------ the clients' steps

  /** A client that goes to sleep in enqueue or leaves it by throwing. */
  lemma EnqueueOutKeeps<T(!new)>(s: Pool<T>, c: Client)
    requires Inv(s) && c in s.clients && s.clients[c].EnqueueReady? && s.queueMutex.None?
    requires s.stop || |s.tasks| >= s.maxQueueSize
    ensures Inv(EnqueueSection(s, c, s.clients[c].task))
  {
    hide Sum, SomeNotify, SomeSignal, SomeAsleep, Owned, FilledBelow, SomeEnqueueAsleep, SomeEmptyAsleep, SomeFlightWaiting, Holders;
    HoldersAt(s.clients, s.queueMutex, s.flightMutex, c);
    ClientSet(s.clients, c, EnqueueAsleep(s.clients[c].task));
    HoldersSet(s.clients, s.queueMutex, s.flightMutex, c, EnqueueAsleep(s.clients[c].task));
    ClientGone(s.clients, c);
    HoldersGone(s.clients, s.queueMutex, s.flightMutex, c);
  }

  lemma EmplaceLedger<T(!new)>(s: Pool<T>, c: Client, task: T)
    requires Ledger(s) && s.queueMutex.None? && !s.stop && s.workers != [] && |s.tasks| < s.maxQueueSize
    ensures Ledger(EnqueueSection(s, c, task))
  {
    hide Sum;
    assert s.taken + s.tasks + [task] == s.taken + (s.tasks + [task]);
  }

  lemma EmplaceOwed<T(!new)>(s: Pool<T>, c: Client, task: T)
    requires WorkersAwake(s) && ClientsOwed(s) && s.queueMutex.None? && !s.stop && |s.tasks| < s.maxQueueSize
    requires c in s.clients && s.clients[c].EnqueueReady?
    ensures var r := EnqueueSection(s, c, task); WorkersAwake(r) && ClientsOwed(r)
  {
    hide Sum, SomeNotify, SomeSignal, SomeAsleep, Owned, FilledBelow, SomeEnqueueAsleep, SomeEmptyAsleep, SomeFlightWaiting, Holders;
    HoldersAt(s.clients, s.queueMutex, s.flightMutex, c);
    ClientSet(s.clients, c, EnqueueAdded);
    HoldersSet(s.clients, s.queueMutex, s.flightMutex, c, EnqueueAdded);
  }

  lemma EnqueueSectionKeeps<T(!new)>(s: Pool<T>, c: Client)
    requires Inv(s) && c in s.clients && s.clients[c].EnqueueReady? && s.queueMutex.None?
    ensures Inv(EnqueueSection(s, c, s.clients[c].task))
  {
    hide Ledger, WorkersAwake, ClientsOwed, Owned;
    if s.stop || |s.tasks| >= s.maxQueueSize {
      hide EnqueueSection;
      EnqueueOutKeeps(s, c);
    } else {
      EmplaceLedger(s, c, s.clients[c].task);
      EmplaceOwed(s, c, s.clients[c].task);
    }
  }

  lemma EnqueueEndKeeps<T(!new)>(s: Pool<T>, c: Client, chosen: nat)
    requires Inv(s) && c in s.clients && s.clients[c].EnqueueAdded?
    ensures Inv(EnqueueEnd(s, c, chosen))
  {
    hide Sum, SomeNotify, SomeSignal, SomeAsleep, Owned, FilledBelow, SomeEnqueueAsleep, SomeEmptyAsleep, SomeFlightWaiting, Holders;
    var added := s.(inFlight := s.inFlight + 1, queueMutex := None, clients := s.clients - {c});
    HoldersAt(s.clients, s.queueMutex, s.flightMutex, c);
    ClientGone(s.clients, c);
    HoldersGone(s.clients, s.queueMutex, s.flightMutex, c);
    if chosen < |s.threads| && s.threads[chosen].pc.Asleep? {
      SetPcOwned(added, chosen, Ready);
      SetPcSums(added, chosen, Ready);
      DebtsStay(added, chosen, Ready);
    }
  }

  lemma EmptyKeeps<T(!new)>(s: Pool<T>, c: Client, chosen: nat)
    requires Inv(s) && c in s.clients && s.clients[c].EmptyReady?
    ensures Inv(ClientStep(s, c, chosen))
  {
    hide Sum, SomeNotify, SomeSignal, SomeAsleep, Owned, FilledBelow, SomeEnqueueAsleep, SomeEmptyAsleep, SomeFlightWaiting, Holders;
    HoldersAt(s.clients, s.queueMutex, s.flightMutex, c);
    ClientSet(s.clients, c, EmptyAsleep);
    ClientGone(s.clients, c);
    HoldersSet(s.clients, s.queueMutex, s.flightMutex, c, EmptyAsleep);
    HoldersGone(s.clients, s.queueMutex, s.flightMutex, c);
  }

  lemma FlightCheckKeeps<T(!new)>(s: Pool<T>, c: Client, chosen: nat)
    requires Inv(s) && c in s.clients && s.clients[c].FlightReady?
    ensures Inv(ClientStep(s, c, chosen))
  {
    hide Sum, SomeNotify, SomeSignal, SomeAsleep, Owned, FilledBelow, SomeEnqueueAsleep, SomeEmptyAsleep, SomeFlightWaiting, Holders;
    HoldersAt(s.clients, s.queueMutex, s.flightMutex, c);
    ClientGone(s.clients, c);
    HoldersGone(s.clients, s.queueMutex, s.flightMutex, c);
    if s.flightMutex.None? {
      ClientSet(s.clients, c, FlightChecked);
      HoldersSet(s.clients, s.queueMutex, s.flightMutex, c, FlightChecked);
    }
  }

  lemma FlightSleepKeeps<T(!new)>(s: Pool<T>, c: Client, chosen: nat)
    requires Inv(s) && c in s.clients && s.clients[c].FlightChecked?
    ensures Inv(ClientStep(s, c, chosen))
  {
    hide Sum, SomeNotify, SomeSignal, SomeAsleep, Owned, FilledBelow, SomeEnqueueAsleep, SomeEmptyAsleep, SomeFlightWaiting, Holders;
    HoldersAt(s.clients, s.queueMutex, s.flightMutex, c);
    ClientSet(s.clients, c, FlightAsleep);
    HoldersSet(s.clients, s.queueMutex, s.flightMutex, c, FlightAsleep);
    StillWaiting(s.clients, c);
  }

  lemma StillWaiting<T>(clients: map<Client, ClientPc<T>>, c: Client)
    requires c in clients && clients[c].FlightChecked?
    ensures SomeFlightWaiting(clients)
  {
  }

  lemma ClientKeeps<T(!new)>(s: Pool<T>, c: Client, chosen: nat)
    requires Inv(s) && c in s.clients
    ensures Inv(ClientStep(s, c, chosen))
  {
    if s.clients[c].EnqueueReady? {
      hide Inv, EnqueueSection;
      if s.queueMutex.None? { EnqueueSectionKeeps(s, c); }
    } else if s.clients[c].EnqueueAdded? {
      hide Inv, EnqueueEnd;
      EnqueueEndKeeps(s, c, chosen);
    } else {
      hide Inv;
      if s.clients[c].EmptyReady? { EmptyKeeps(s, c, chosen); }
      if s.clients[c].FlightReady? { FlightCheckKeeps(s, c, chosen); }
      if s.clients[c].FlightChecked? { FlightSleepKeeps(s, c, chosen); }
    }
  }

  lemma ClientMovesKeep<T(!new)>(s: Pool<T>, c: Client, pc: ClientPc<T>)
    requires Inv(s)
    requires if c in s.clients then pc == WokenClient(s.clients[c])
             else pc.EnqueueReady? || pc.EmptyReady? || pc.FlightReady?
    ensures Inv(s.(clients := s.clients[c := pc]))
  {
    hide Sum, SomeNotify, SomeSignal, SomeAsleep, Owned, FilledBelow, SomeEnqueueAsleep, SomeEmptyAsleep, SomeFlightWaiting, Holders;
    HoldersAt(s.clients, s.queueMutex, s.flightMutex, c);
    ClientSet(s.clients, c, pc);
    HoldersSet(s.clients, s.queueMutex, s.flightMutex, c, pc);
    if pc.FlightChecked? { StillWaiting(s.clients, c); }
  }

  lemma NotifyProducersKeeps<T(!new)>(s: Pool<T>)
    requires Slots(s) && Ledger(s) && WorkersAwake(s)
    requires s.maxQueueSize >= 1 && Holders(s.clients, s.queueMutex, s.flightMutex)
    requires SomeFlightWaiting(s.clients) && s.inFlight == 0 ==> SomeSignal(s.threads)
    ensures Inv(NotifyProducers(s))
  {
    hide Sum, SomeNotify, SomeSignal, SomeAsleep, Owned, FilledBelow, SomeEnqueueAsleep, SomeEmptyAsleep, SomeFlightWaiting, Holders;
    hide NotifyProducers;
    ProducersWoken(s);
  }

  // ------------------------------------------------------------------ limits and the destructor

  lemma LimitKeeps<T(!new)>(s: Pool<T>, limit: nat)
    requires Inv(s)
    ensures Inv(SetQueueSizeLimit(s, limit))
  {
    hide Sum, SomeNotify, SomeSignal, SomeAsleep, Owned, FilledBelow, NotifyProducers;
    if !s.stop {
      var changed := s.(maxQueueSize := if limit < 1 then 1 else limit);
      if s.maxQueueSize < changed.maxQueueSize { NotifyProducersKeeps(changed); }
    }
  }

  /** A thread started in slot `i`: a detached slot, or the next one. */
  lemma SlotOwned<T(!new)>(workers: seq<Option<nat>>, poolSize: nat, threads: seq<Worker<T>>, i: nat)
    requires Owned(workers, poolSize, threads) && i <= |workers| && i < poolSize && (i < |workers| ==> workers[i].None?)
    ensures var t := Some(|threads|);
      Owned(if i < |workers| then workers[i := t] else workers + [t], poolSize, threads + [Worker(i, Ready)])
  {
    if i < |workers| { SlotReused(workers, poolSize, threads, i); } else { SlotAppended(workers, poolSize, threads); }
    hide Owned;
  }

  lemma SlotReused<T(!new)>(workers: seq<Option<nat>>, poolSize: nat, threads: seq<Worker<T>>, i: nat)
    requires Owned(workers, poolSize, threads) && i < |workers| && i < poolSize && workers[i].None?
    ensures Owned(workers[i := Some(|threads|)], poolSize, threads + [Worker(i, Ready)])
  {
  }

  lemma SlotAppended<T(!new)>(workers: seq<Option<nat>>, poolSize: nat, threads: seq<Worker<T>>)
    requires Owned(workers, poolSize, threads)
    ensures Owned(workers + [Some(|threads|)], poolSize, threads + [Worker(|workers|, Ready)])
  {
  }

  lemma StartWorkerOwned<T(!new)>(s: Pool<T>, i: nat)
    requires Owned(s.workers, s.poolSize, s.threads) && FilledBelow(s.workers, i) && i < s.poolSize
    ensures var r := StartWorker(s, i);
      && Owned(r.workers, r.poolSize, r.threads) && FilledBelow(r.workers, i + 1)
      && (r.threads == s.threads || r.threads == s.threads + [Worker(i, Ready)])
      && r == s.(workers := r.workers, threads := r.threads)
  {
    hide Owned;
    if i == |s.workers| || s.workers[i].None? { SlotOwned(s.workers, s.poolSize, s.threads, i); }
  }

  /** `more` is `ws` followed by workers that just started. */
  ghost predicate Started<T>(ws: seq<Worker<T>>, more: seq<Worker<T>>) {
    ws <= more && forall i :: |ws| <= i < |more| ==> more[i].pc.Ready?
  }

  lemma {:induction false} StartWorkersOwned<T(!new)>(s: Pool<T>, from: nat, to: nat)
    requires Owned(s.workers, s.poolSize, s.threads) && FilledBelow(s.workers, from) && from <= to <= s.poolSize
    ensures var r := StartWorkers(s, from, to);
      && Owned(r.workers, r.poolSize, r.threads) && FilledBelow(r.workers, to)
      && Started(s.threads, r.threads)
      && r == s.(workers := r.workers, threads := r.threads)
  {
    hide Owned, FilledBelow, StartWorker;
    if from < to {
      StartWorkersOwned(s, from, to - 1);
      StartWorkerOwned(StartWorkers(s, from, to - 1), to - 1);
    }
  }

  lemma {:induction false} StartedSum<T(!new)>(ws: seq<Worker<T>>, more: seq<Worker<T>>, f: Worker<T> -> nat)
    requires Started(ws, more) && forall w: Worker<T> :: w.pc.Ready? ==> f(w) == 0
    ensures Sum(more, f) == Sum(ws, f)
  {
    if |ws| < |more| {
      StartedSum(ws, more[..|more| - 1], f);
    } else {
      assert ws == more;
    }
  }

  lemma StartedSums<T(!new)>(ws: seq<Worker<T>>, more: seq<Worker<T>>, m: nat, n: nat)
    requires Started(ws, more) && m <= n
    ensures Sum(more, IsBusy) == Sum(ws, IsBusy)
    ensures forall x :: Sum(more, Holds(x)) == Sum(ws, Holds(x))
    ensures Sum(ws, ReadyBelow(m)) <= Sum(more, ReadyBelow(n))
    ensures SomeNotify(ws) ==> SomeNotify(more)
    ensures SomeSignal(ws) ==> SomeSignal(more)
    ensures SomeAsleep(more) ==> SomeAsleep(ws)
  {
    hide Sum;
    StartedSum(ws, more, IsBusy);
    forall x ensures Sum(more, Holds(x)) == Sum(ws, Holds(x)) { StartedSum(ws, more, Holds(x)); }
    SumMonotone(ws, ReadyBelow(m), more, ReadyBelow(n));
    if w :| 0 <= w < |ws| && ws[w].pc.Notify? { assert more[w].pc.Notify?; }
    if w :| 0 <= w < |ws| && ws[w].pc.Signal? { assert more[w].pc.Signal?; }
  }

  /** Workers that just started do not change the ledger or take any debt away. */
  lemma StartedKeeps<T(!new)>(s: Pool<T>, r: Pool<T>)
    requires Inv(s) && !s.stop && Started(s.threads, r.threads) && s.poolSize <= r.poolSize && r.workers != []
    requires r == s.(poolSize := r.poolSize, workers := r.workers, threads := r.threads)
    ensures Ledger(r) && WorkersAwake(r) && ClientsOwed(r)
  {
    StartedSums(s.threads, r.threads, s.poolSize, r.poolSize);
    hide Sum, SomeNotify, SomeSignal, SomeAsleep, Owned, FilledBelow, SomeEnqueueAsleep, SomeEmptyAsleep, SomeFlightWaiting, Holders;
  }

  lemma GrowKeeps<T(!new)>(s: Pool<T>, size: nat)
    requires Inv(s) && !s.stop && size > s.poolSize
    ensures Inv(StartWorkers(s.(poolSize := size), s.poolSize, size))
  {
    var resized := s.(poolSize := size);
    var r := StartWorkers(resized, s.poolSize, size);
    assert Owned(s.workers, size, s.threads);
    hide Owned, StartWorkers, Started;
    StartWorkersOwned(resized, s.poolSize, size);
    hide Ledger, WorkersAwake, ClientsOwed;
    StartedKeeps(s, r);
  }

  lemma ShrinkOwned<T(!new)>(s: Pool<T>, size: nat)
    requires Slots(s) && size <= s.poolSize
    ensures Owned(s.workers, size, s.threads) && (!s.stop ==> FilledBelow(s.workers, size))
  {
  }

  lemma ShrinkKeeps<T(!new)>(s: Pool<T>, size: nat)
    requires Inv(s) && !s.stop && 1 <= size < s.poolSize
    ensures Inv(NotifyConsumers(s.(poolSize := size)))
  {
    ShrinkOwned(s, size);
    hide Sum, SomeNotify, SomeSignal, SomeAsleep, Owned, FilledBelow;
    NotifyConsumersKeeps(s.(poolSize := size));
  }

  lemma PoolSizeKeeps<T(!new)>(s: Pool<T>, limit: nat)
    requires Inv(s)
    ensures Inv(SetPoolSize(s, limit))
  {
    if !s.stop {
      var size := if limit < 1 then 1 else limit;
      if size > s.poolSize { GrowKeeps(s, size); }
      if size < s.poolSize { ShrinkKeeps(s, size); }
    }
    hide StartWorkers, NotifyConsumers, Ledger, WorkersAwake, ClientsOwed, Owned;
  }

  /** The destructor's assert: with no worker left nothing is in flight. */
  lemma DestructorTestKeeps<T(!new)>(s: Pool<T>)
    requires Inv(s.(destructor := Woken)) && s.queueMutex.None?
    ensures Inv(DestructorTest(s))
  {
    if s.workers == [] {
      EmptyWhenNoneLive(s.(destructor := Woken));
      SumZero(s.threads, IsBusy);
    }
    hide Sum, SomeNotify, SomeSignal, SomeAsleep, Owned, FilledBelow;
  }

  lemma DestroyKeeps<T(!new)>(s: Pool<T>)
    requires Inv(s) && s.queueMutex.None? && s.destructor.NotCalled?
    ensures Inv(Destroy(s))
  {
    var stopped := s.(stop := true, poolSize := 0);
    var woken := NotifyConsumers(stopped);
    StopWakes(s);
    hide NotifyConsumers, NotifyProducers, Inv, DestructorTest;
    ProducersWoken(woken);
    assert NotifyProducers(woken).(destructor := Woken) == NotifyProducers(woken.(destructor := Woken)) by { WokenOnce(woken); }
    DestructorTestKeeps(NotifyProducers(woken));
  }

  lemma WokenOnce<T(!new)>(s: Pool<T>)
    ensures NotifyProducers(s).(destructor := Woken) == NotifyProducers(s.(destructor := Woken))
  {
  }

  lemma StopWakes<T(!new)>(s: Pool<T>)
    requires Inv(s) && s.queueMutex.None? && s.destructor.NotCalled?
    ensures var woken := NotifyConsumers(s.(stop := true, poolSize := 0));
      Inv(NotifyProducers(woken.(destructor := Woken))) && woken.queueMutex.None?
  {
    hide Sum, SomeNotify, SomeSignal, SomeAsleep, Owned, FilledBelow, WakeAll;
    ShrinkOwned(s, 0);
    var stopped := s.(stop := true, poolSize := 0);
    NotifyConsumersOwned(stopped);
    NotifyConsumersLedger(stopped);
    NotifyConsumersOwed(s);
    NotifyProducersKeeps(NotifyConsumers(stopped).(destructor := Woken));
  }

  // ------------------------------------------------------------------ every step, every run

  lemma WakeDestructorKeeps<T(!new)>(s: Pool<T>)
    requires Inv(s) && s.destructor.Sleeping?
    ensures Inv(s.(destructor := Woken))
  {
    hide Sum, SomeNotify, SomeSignal, SomeAsleep, Owned, FilledBelow, SomeEnqueueAsleep, SomeEmptyAsleep, SomeFlightWaiting, Holders;
  }

  lemma ThreadsKeep<T(!new)>(s: Pool<T>, a: Action<T>)
    requires Inv(s) && (a.RunWorker? || a.WakeWorker?)
    ensures Inv(Step(s, a))
  {
    hide Inv, WorkerStep;
    match a
    case RunWorker(w) => if w < |s.threads| { WorkerKeeps(s, w); }
    case WakeWorker(w) =>
      if w < |s.threads| {
        if s.threads[w].pc.Asleep? { WakeWorkerKeeps(s, w); }
        else { assert s.threads[w := Wake(s.threads[w])] == s.threads; }
      }
  }

  lemma ClientsKeep<T(!new)>(s: Pool<T>, a: Action<T>)
    requires Inv(s)
    requires a.CallEnqueue? || a.CallWaitUntilEmpty? || a.CallWaitUntilNothingInFlight? || a.RunClient? || a.WakeClient?
    ensures Inv(Step(s, a))
  {
    hide Inv, ClientStep, WokenClient;
    match a
    case CallEnqueue(c, task) => if c !in s.clients { ClientMovesKeep(s, c, EnqueueReady(task)); }
    case CallWaitUntilEmpty(c) => if c !in s.clients { ClientMovesKeep(s, c, EmptyReady); }
    case CallWaitUntilNothingInFlight(c) => if c !in s.clients { ClientMovesKeep(s, c, FlightReady); }
    case RunClient(c, chosen) => if c in s.clients { ClientKeeps(s, c, chosen); }
    case WakeClient(c) => if c in s.clients { ClientMovesKeep(s, c, WokenClient(s.clients[c])); }
  }

  lemma StepKeeps<T(!new)>(s: Pool<T>, a: Action<T>)
    requires Inv(s)
    ensures Inv(Step(s, a))
  {
    hide Inv;
    if a.RunWorker? || a.WakeWorker? {
      ThreadsKeep(s, a);
    } else if a.CallEnqueue? || a.CallWaitUntilEmpty? || a.CallWaitUntilNothingInFlight? || a.RunClient? || a.WakeClient? {
      ClientsKeep(s, a);
    } else {
      hide SetQueueSizeLimit, SetPoolSize, Destroy, DestructorTest;
      match a
      case CallSetQueueSizeLimit(limit) => LimitKeeps(s, limit);
      case CallSetPoolSize(limit) => PoolSizeKeeps(s, limit);
      case CallDestructor => if s.queueMutex.None? && s.destructor.NotCalled? { DestroyKeeps(s); }
      case RunDestructor =>
        if s.queueMutex.None? && s.destructor.Woken? { assert s.(destructor := Woken) == s; DestructorTestKeeps(s); }
      case WakeDestructor => if s.destructor.Sleeping? { WakeDestructorKeeps(s); }
      case _ =>
    }
  }

  lemma FreshInv<T(!new)>(threads: nat)
    requires threads >= 1
    ensures Inv(Fresh<T>(threads))
  {
    var s: Pool<T> := Pool([], threads, [], DEFAULT_QUEUE_SIZE, false, 0, None, None, [], map[], NotCalled, false, [], [], []);
    var r := Fresh<T>(threads);
    assert r == StartWorkers(s, 0, threads);
    assert Owned(s.workers, s.poolSize, s.threads) && FilledBelow(s.workers, 0);
    hide *;
    StartWorkersOwned(s, 0, threads);
    FreshParts(s, r);
  }

  lemma FreshParts<T(!new)>(s: Pool<T>, r: Pool<T>)
    requires Started(s.threads, r.threads) && r == s.(workers := r.workers, threads := r.threads)
    requires Owned(r.workers, r.poolSize, r.threads) && FilledBelow(r.workers, r.poolSize)
    requires s == Pool([], s.poolSize, [], DEFAULT_QUEUE_SIZE, false, 0, None, None, [], map[], NotCalled, false, [], [], []) && s.poolSize >= 1
    ensures Inv(r)
  {
    hide Owned;
    NewWorkers<T>(r.threads, r.poolSize);
    NobodyInside<T>();
    assert r.workers != [];
    hide Started, FilledBelow, Sum, SomeNotify, SomeSignal, SomeAsleep, SomeEnqueueAsleep, SomeEmptyAsleep, SomeFlightWaiting, Holders;
  }

  lemma NobodyInside<T>()
    ensures !SomeEnqueueAsleep<T>(map[]) && !SomeEmptyAsleep<T>(map[]) && !SomeFlightWaiting<T>(map[]) && Holders<T>(map[], None, None)
  {
  }

  /** Workers that have just started hold nothing and none of them sleeps. */
  lemma NewWorkers<T(!new)>(ws: seq<Worker<T>>, n: nat)
    requires Started([], ws)
    ensures Sum(ws, IsBusy) == 0 && (forall x :: Sum(ws, Holds(x)) == 0) && !SomeAsleep(ws)
  {
    hide Sum;
    SumZero(ws, IsBusy);
    forall x ensures Sum(ws, Holds(x)) == 0 { SumZero(ws, Holds(x)); }
  }

  lemma {:induction false} RunKeeps<T(!new)>(threads: nat, schedule: seq<Action<T>>)
    requires threads >= 1
    ensures Inv(Run(threads, schedule))
  {
    hide Inv, Step;
    if schedule == [] {
      FreshInv<T>(threads);
    } else {
      RunKeeps(threads, schedule[..|schedule| - 1]);
      StepKeeps(Run(threads, schedule[..|schedule| - 1]), schedule[|schedule| - 1]);
    }
  }
}
