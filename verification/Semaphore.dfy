/** LightweightSemaphore of include/message_queue/atomicops.h with one waiting and one signalling
    thread, as a step machine: each step is one access to `m_count` or to the kernel semaphore, which
    is a counter of permits.  A kernel wait may block, succeed when a permit is there, or come back
    without one (timeout or error).  `released` and `taken` are history variables. */
module Semaphore {

  /** The sign of `timeout_usecs`: negative waits for ever, zero not at all. */
  datatype Timeout = Forever | Immediate | Timed

  datatype WaitCall = TryWait | Wait(timeout: Timeout)

  const SPIN: nat := 1024

  datatype Waiter =
    | WIdle
    | W636(call: WaitCall)
    | W638
    | W594(left: nat, timeout: Timeout)
    | W596
    | W601(timeout: Timeout)
    | W606
    | W609
    | W618
    | W622
    | W623

  datatype Signaller = SIdle | SCrash | S657(n: nat) | S661

  /** `sawNone`: nothing was available at the access that decided the answer. */
  datatype WaitResult = NoWait | Granted | Denied(sawNone: bool)

  datatype Sem = Sem(
    count: int,
    permits: nat,
    waiter: Waiter,
    signaller: Signaller,
    initial: nat,
    released: nat,
    taken: nat,
    answer: WaitResult)

  /** What the kernel does with a blocked waiter. */
  datatype Kernel = Grant | Block | GiveUp

  function Available(s: Sem): int {
    s.initial + s.released - s.taken
  }

  function Granting(s: Sem): Sem {
    s.(waiter := WIdle, taken := s.taken + 1, answer := Granted)
  }

  /** tryWait (634-642), wait (644-652) and waitWithPartialSpinning (585-626). */
  function WaiterStep(s: Sem, k: Kernel): Sem {
    match s.waiter
    case WIdle => s
    case W636(call) =>
      if s.count > 0 then s.(waiter := W638)
      else if call.TryWait? then s.(waiter := WIdle, answer := Denied(Available(s) == 0))
      else s.(waiter := W594(SPIN, call.timeout))
    case W638 => Granting(s.(count := s.count - 1))
    case W594(left, timeout) =>
      if left == 0 then s.(waiter := W601(timeout))
      else if s.count > 0 then s.(waiter := W596)
      else s.(waiter := W594(left - 1, timeout))
    case W596 => Granting(s.(count := s.count - 1))
    case W601(timeout) =>
      if s.count > 0 then Granting(s.(count := s.count - 1))
      else s.(count := s.count - 1,
              waiter := match timeout case Forever => W606 case Immediate => W618 case Timed => W609)
    case W606 => KernelWait(s, k)
    case W609 => KernelWait(s, k)
    case W618 =>
      if s.count < 0 then s.(count := s.count + 1, waiter := WIdle, answer := Denied(Available(s) == 0))
      else s.(count := s.count + 1, waiter := W622)
    case W622 =>
      s.(count := s.count - 1, waiter := if s.count > 0 then W623 else W618)
    case W623 =>
      if s.permits > 0 then Granting(s.(permits := s.permits - 1)) else s.(waiter := W618)
  }

  function KernelWait(s: Sem, k: Kernel): Sem {
    match k
    case Grant => if s.permits > 0 then Granting(s.(permits := s.permits - 1)) else s
    case Block => s
    case GiveUp => s.(waiter := W618)
  }

  /** signal, lines 654-663. */
  function SignallerStep(s: Sem): Sem {
    match s.signaller
    case SIdle => s
    case SCrash => s
    case S657(n) =>
      if s.count < -1 then s.(signaller := SCrash)              // the assert of line 658
      else s.(count := s.count + n, released := s.released + n,
              signaller := if s.count < 0 then S661 else SIdle)
    case S661 => s.(permits := s.permits + 1, signaller := SIdle)
  }

  datatype Action = CallWait(call: WaitCall) | CallSignal(more: nat) | WaiterRuns(k: Kernel) | SignallerRuns

  /** `CallSignal(more)` is `signal(more + 1)`.  A wait begins with no answer. */
  function Step(s: Sem, a: Action): Sem {
    match a
    case CallWait(call) => if s.waiter.WIdle? then s.(waiter := W636(call), answer := NoWait) else s
    case CallSignal(more) => if s.signaller.SIdle? then s.(signaller := S657(more + 1)) else s
    case WaiterRuns(k) => WaiterStep(s, k)
    case SignallerRuns => SignallerStep(s)
  }

  function Run(s: Sem, schedule: seq<Action>): Sem {
    if schedule == [] then s else Step(Run(s, schedule[..|schedule| - 1]), schedule[|schedule| - 1])
  }

  function Fresh(initial: nat): Sem {
    Sem(initial, 0, WIdle, SIdle, initial, 0, 0, NoWait)
  }

  /** Kernel permits granted to the waiter: posted, or about to be posted by line 661. */
  function Outstanding(s: Sem): nat {
    s.permits + if s.signaller.S661? then 1 else 0
  }

  /** While the waiter is registered its decrement of line 601 stands: either nobody signalled since
      and the count is -1, or exactly one permit is on its way.  Line 618 takes the decrement back for
      a moment when the permit is already due. */
  ghost predicate Inv(s: Sem) {
    && !s.signaller.SCrash? && (s.signaller.S657? ==> s.signaller.n >= 1)
    && (s.answer.Denied? ==> s.answer.sawNone)
    && (s.waiter.W594? ==> s.waiter.left <= SPIN)
    && match s.waiter {
         case W606 => Registered(s)
         case W609 => Registered(s)
         case W618 => Registered(s)
         case W623 => Registered(s) && s.count >= 0
         case W622 => s.count == Available(s) >= 1 && Outstanding(s) == 1
         case _ => s.count == Available(s) >= 0 && Outstanding(s) == 0 && (s.waiter.W638? || s.waiter.W596? ==> s.count > 0)
       }
  }

  ghost predicate Registered(s: Sem) {
    s.count == Available(s) - 1 && (if s.count < 0 then s.count == -1 && Outstanding(s) == 0 else Outstanding(s) == 1)
  }

  lemma FreshInv(initial: nat)
    ensures Inv(Fresh(initial))
  {
  }

  lemma WaiterKeeps(s: Sem, k: Kernel)
    requires Inv(s)
    ensures Inv(WaiterStep(s, k))
  {
  }

  lemma SignallerKeeps(s: Sem)
    requires Inv(s)
    ensures Inv(SignallerStep(s))
  {
  }

  lemma StepKeeps(s: Sem, a: Action)
    requires Inv(s)
    ensures Inv(Step(s, a))
  {
    match a
    case CallWait(_) =>
    case CallSignal(_) =>
    case WaiterRuns(k) => hide Inv; WaiterKeeps(s, k);
    case SignallerRuns => hide Inv; SignallerKeeps(s);
  }

  lemma {:induction false} RunKeeps(initial: nat, schedule: seq<Action>)
    ensures Inv(Run(Fresh(initial), schedule))
  {
    if schedule != [] {
      RunKeeps(initial, schedule[..|schedule| - 1]);
      StepKeeps(Run(Fresh(initial), schedule[..|schedule| - 1]), schedule[|schedule| - 1]);
    }
  }

  /** On every schedule: the assert of line 658 holds, the count never drops below -1, at most one
      kernel permit is outstanding and none while the waiter is idle (so a wait that timed out has left
      no trace), no more waits succeed than were released, a refused wait saw nothing available, and
      a blocked waiter with no permit due has nothing to wake up for. */
  lemma EverySchedule(initial: nat, schedule: seq<Action>)
    ensures var s := Run(Fresh(initial), schedule);
      && !s.signaller.SCrash? && s.count >= -1
      && Outstanding(s) <= 1
      && (s.waiter.WIdle? ==> Outstanding(s) == 0 && s.count == Available(s))
      && s.taken <= s.initial + s.released
      && (s.answer.Denied? ==> s.answer.sawNone)
      && ((s.waiter.W606? || s.waiter.W609?) && Outstanding(s) == 0 ==> Available(s) == 0)
      && ((s.waiter.W606? || s.waiter.W609?) && Available(s) > 0 ==> Outstanding(s) == 1)
  {
    RunKeeps(initial, schedule);
  }

  // ------------------------------------------------------------------ progress of the waiter

  /** How many accesses the waiter still makes at most outside the kernel. */
  function WaiterFuel(w: Waiter): nat {
    match w
    case WIdle => 0
    case W636(_) => SPIN + 7
    case W638 => 1
    case W594(left, _) => left + 6
    case W596 => 1
    case W601(_) => 5
    case W606 => 4
    case W609 => 4
    case W618 => 3
    case W622 => 2
    case W623 => 1
  }

  /** The waiter sleeps in the kernel and this kernel step does not end that. */
  predicate Blocked(s: Sem, k: Kernel) {
    (s.waiter.W606? || s.waiter.W609?) && (k.Block? || (k.Grant? && s.permits == 0))
  }

  lemma WaiterSpends(s: Sem, k: Kernel)
    requires Inv(s) && !s.waiter.WIdle? && !s.signaller.S661? && !Blocked(s, k)
    ensures WaiterFuel(WaiterStep(s, k).waiter) < WaiterFuel(s.waiter) <= SPIN + 7
  {
  }

  /** Every wait ends: unless the kernel keeps it asleep or a signal is between its increment and its post,
      each step of the waiter brings its return closer.  So the loop of lines 615-625 takes at most three
      more accesses. */
  lemma WaitEnds(initial: nat, schedule: seq<Action>, k: Kernel)
    ensures var s := Run(Fresh(initial), schedule);
      !s.waiter.WIdle? && !s.signaller.S661? && !Blocked(s, k) ==>
        WaiterFuel(WaiterStep(s, k).waiter) < WaiterFuel(s.waiter) <= SPIN + 7
  {
    hide Run, Inv, WaiterFuel, WaiterStep;
    RunKeeps(initial, schedule);
    var s := Run(Fresh(initial), schedule);
    if !s.waiter.WIdle? && !s.signaller.S661? && !Blocked(s, k) { WaiterSpends(s, k); }
  }

  /** From the head of that loop the waiter returns by itself exactly when no signal is between its
      increment and its post; otherwise it goes round once and is where it was. */
  lemma UndoLoop(initial: nat, schedule: seq<Action>, k: Kernel)
    ensures var s := Run(Fresh(initial), schedule);
      var one := WaiterStep(s, k);
      var round := WaiterStep(WaiterStep(one, k), k);
      s.waiter.W618? ==>
        && (one.waiter.WIdle? || round.waiter.WIdle? <==> !s.signaller.S661?)
        && (s.signaller.S661? ==> round == s)
  {
    RunKeeps(initial, schedule);
    hide Run;
  }

  // ------------------------------------------------------------------ what one call answers

  predicate Sleeps(w: Waiter) {
    w.W606? || w.W609?
  }

  /** The waiter is inside `call`; `gaveUp`: the kernel ended its sleep without a permit. */
  predicate Serves(w: Waiter, call: WaitCall, gaveUp: bool) {
    match w
    case WIdle => false
    case W636(c) => c == call
    case W638 => true
    case W594(_, timeout) => call == Wait(timeout)
    case W596 => call.Wait?
    case W601(timeout) => call == Wait(timeout)
    case W606 => call == Wait(Forever)
    case W609 => call == Wait(Timed)
    case _ => call == Wait(Immediate) || (call.Wait? && gaveUp)
  }

  lemma ServesStep(s: Sem, k: Kernel, call: WaitCall, gaveUp: bool)
    requires Serves(s.waiter, call, gaveUp)
    ensures var r := WaiterStep(s, k);
      if !r.waiter.WIdle? then
        Serves(r.waiter, call, gaveUp || (k.GiveUp? && Sleeps(s.waiter))) && r.answer == s.answer && r.taken == s.taken
      else if r.answer.Granted? then r.taken == s.taken + 1
      else r.answer == Denied(Available(s) == 0) && r.taken == s.taken && (call == TryWait || call == Wait(Immediate) || gaveUp)
  {
  }

  lemma ServesMore(w: Waiter, call: WaitCall, gaveUp: bool)
    ensures Serves(w, call, gaveUp) ==> !w.WIdle? && Serves(w, call, true)
  {
  }

  /** At step `k` the kernel ended the waiter's sleep without a permit. */
  ghost predicate GaveUpAt(s: Sem, acts: seq<Action>, k: nat)
    requires k < |acts|
  {
    acts[k] == WaiterRuns(GiveUp) && Sleeps(Run(s, acts[..k]).waiter)
  }

  ghost predicate GaveUp(s: Sem, acts: seq<Action>) {
    exists k :: 0 <= k < |acts| && GaveUpAt(s, acts, k)
  }

  /** After `k` steps the wait was under way and nothing was available. */
  ghost predicate SawNoneAt(s: Sem, acts: seq<Action>, k: nat)
    requires k < |acts|
  {
    !Run(s, acts[..k]).waiter.WIdle? && Available(Run(s, acts[..k])) == 0
  }

  ghost predicate SawNone(s: Sem, acts: seq<Action>) {
    exists k :: 0 <= k < |acts| && SawNoneAt(s, acts, k)
  }

  lemma SameBefore(s: Sem, acts: seq<Action>, n: nat, k: nat)
    requires k < n <= |acts|
    ensures GaveUpAt(s, acts[..n], k) == GaveUpAt(s, acts, k)
    ensures SawNoneAt(s, acts[..n], k) == SawNoneAt(s, acts, k)
  {
    hide Run, Available, Sleeps;
    assert acts[..n][..k] == acts[..k];
  }

  lemma OneMore(s: Sem, acts: seq<Action>)
    requires acts != []
    ensures var n := |acts| - 1; var q := Run(s, acts[..n]);
      && (GaveUp(s, acts) <==> GaveUp(s, acts[..n]) || (acts[n] == WaiterRuns(GiveUp) && Sleeps(q.waiter)))
      && (SawNone(s, acts) <==> SawNone(s, acts[..n]) || (!q.waiter.WIdle? && Available(q) == 0))
  {
    var n := |acts| - 1;
    hide Run, Available, Sleeps;
    assert GaveUpAt(s, acts, n) <==> acts[n] == WaiterRuns(GiveUp) && Sleeps(Run(s, acts[..n]).waiter);
    assert SawNoneAt(s, acts, n) <==> !Run(s, acts[..n]).waiter.WIdle? && Available(Run(s, acts[..n])) == 0;
    hide GaveUpAt, SawNoneAt;
    forall k | 0 <= k < n
      ensures GaveUpAt(s, acts[..n], k) == GaveUpAt(s, acts, k) && SawNoneAt(s, acts[..n], k) == SawNoneAt(s, acts, k)
    {
      SameBefore(s, acts, n, k);
    }
  }

  /** The wait as far as the schedule takes it. */
  ghost predicate Waits(s: Sem, acts: seq<Action>, call: WaitCall) {
    var r := Run(s, acts);
    if !r.waiter.WIdle? then Serves(r.waiter, call, GaveUp(s, acts)) && r.answer == NoWait && r.taken == s.taken
    else if r.answer.Granted? then r.taken == s.taken + 1
    else r.answer.Denied? && r.taken == s.taken && (r.answer.sawNone ==> SawNone(s, acts))
         && (call == TryWait || call == Wait(Immediate) || GaveUp(s, acts))
  }

  lemma WaitGoesOn(s: Sem, acts: seq<Action>, call: WaitCall)
    requires acts != [] && !acts[|acts| - 1].CallWait? && Waits(s, acts[..|acts| - 1], call)
    ensures Waits(s, acts, call)
  {
    hide WaiterStep, Serves, GaveUp, SawNone;
    var n := |acts| - 1;
    var q := Run(s, acts[..n]);
    OneMore(s, acts);
    WaiterRests(q);
    if acts[n].WaiterRuns? && !q.waiter.WIdle? {
      ServesStep(q, acts[n].k, call, GaveUp(s, acts[..n]));
    }
    ServesMore(Run(s, acts).waiter, call, GaveUp(s, acts[..n]));
  }

  lemma WaiterRests(s: Sem)
    ensures s.waiter.WIdle? ==> forall k :: WaiterStep(s, k) == s
  {
  }

  lemma {:induction false} WaitsAll(s: Sem, acts: seq<Action>, call: WaitCall)
    requires s.waiter == W636(call) && s.answer == NoWait
    requires forall i :: 0 <= i < |acts| ==> !acts[i].CallWait?
    ensures Waits(s, acts, call)
  {
    if acts != [] {
      WaitsAll(s, acts[..|acts| - 1], call);
      WaitGoesOn(s, acts, call);
    }
  }

  lemma {:induction false} RunAppend(q: Sem, s: seq<Action>, t: seq<Action>)
    ensures Run(q, s + t) == Run(Run(q, s), t)
  {
    if t == [] {
      assert s + t == s;
    } else {
      hide Step;
      RunAppend(q, s, t[..|t| - 1]);
      assert (s + t)[..|s + t| - 1] == s + t[..|t| - 1];
    }
  }

  /** One call of tryWait or wait, begun in any reachable state and followed by any schedule without another
      wait: while it runs nothing is taken; granted, it has taken one; refused, it has taken nothing,
      nothing was available at a moment of this same call, and it was not to wait or the kernel gave
      up.  Only a wait for ever sleeps at line 606 and only a timed one at line 609. */
  lemma WaitOutcome(initial: nat, schedule: seq<Action>, call: WaitCall, acts: seq<Action>)
    requires Run(Fresh(initial), schedule).waiter.WIdle?
    requires forall i :: 0 <= i < |acts| ==> !acts[i].CallWait?
    ensures var q := Run(Fresh(initial), schedule);
      var s := Step(q, CallWait(call));
      var r := Run(s, acts);
      && (!r.waiter.WIdle? ==> r.answer == NoWait && r.taken == q.taken)
      && (r.waiter.WIdle? ==> r.answer.Granted? || r.answer.Denied?)
      && (r.answer.Granted? ==> r.taken == q.taken + 1)
      && (r.answer.Denied? ==> r.taken == q.taken && SawNone(s, acts))
      && (r.answer.Denied? && call != TryWait && call != Wait(Immediate) ==> GaveUp(s, acts))
      && (r.waiter.W606? ==> call == Wait(Forever)) && (r.waiter.W609? ==> call == Wait(Timed))
  {
    hide Run, Fresh, GaveUp, SawNone;
    var s := Step(Run(Fresh(initial), schedule), CallWait(call));
    WaitsAll(s, acts, call);
    Reached(initial, schedule, CallWait(call), acts);
    EverySchedule(initial, schedule + [CallWait(call)] + acts);
  }

  lemma Reached(initial: nat, schedule: seq<Action>, call: Action, acts: seq<Action>)
    ensures Run(Step(Run(Fresh(initial), schedule), call), acts) == Run(Fresh(initial), schedule + [call] + acts)
  {
    hide Fresh, Step;
    RunAppend(Fresh(initial), schedule + [call], acts);
    assert (schedule + [call])[..|schedule + [call]| - 1] == schedule;
  }

  lemma {:induction false} MoreReleased(s: Sem, acts: seq<Action>)
    ensures Run(s, acts).initial == s.initial && Run(s, acts).released >= s.released
  {
    if acts != [] { MoreReleased(s, acts[..|acts| - 1]); }
  }

  /** A wait begun with something available is granted, whatever the call. */
  lemma WaitSucceeds(initial: nat, schedule: seq<Action>, call: WaitCall, acts: seq<Action>)
    requires Run(Fresh(initial), schedule).waiter.WIdle? && Available(Run(Fresh(initial), schedule)) > 0
    requires forall i :: 0 <= i < |acts| ==> !acts[i].CallWait?
    ensures var r := Run(Step(Run(Fresh(initial), schedule), CallWait(call)), acts);
      r.waiter.WIdle? ==> r.answer.Granted?
  {
    hide Run, Fresh, GaveUp;
    var s := Step(Run(Fresh(initial), schedule), CallWait(call));
    WaitOutcome(initial, schedule, call, acts);
    forall k | 0 <= k < |acts| && !Run(s, acts[..k]).waiter.WIdle? ensures Available(Run(s, acts[..k])) > 0 {
      WaitOutcome(initial, schedule, call, acts[..k]);
      MoreReleased(s, acts[..k]);
    }
  }

  /** One call of signal releases what it was given, once; a post follows if line 657 found a waiter. */
  lemma {:induction false} SignalOutcome(s: Sem, more: nat, acts: seq<Action>)
    requires s.signaller.SIdle?
    requires forall i :: 0 <= i < |acts| ==> !acts[i].CallSignal?
    ensures var r := Run(Step(s, CallSignal(more)), acts);
      && (r.signaller.S657? ==> r.released == s.released && r.signaller.n == more + 1)
      && (r.signaller.S661? || r.signaller.SIdle? ==> r.released == s.released + more + 1)
  {
    if acts != [] {
      SignalOutcome(s, more, acts[..|acts| - 1]);
      WaiterKeepsSignals(Run(Step(s, CallSignal(more)), acts[..|acts| - 1]));
      hide WaiterStep;
    }
  }

  lemma WaiterKeepsSignals(s: Sem)
    ensures forall k :: WaiterStep(s, k).signaller == s.signaller && WaiterStep(s, k).released == s.released
  {
  }
}
