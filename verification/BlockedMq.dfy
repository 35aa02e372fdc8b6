/** BlockedMQ (include/message_queue/blocked_mq.h) as a monitor used by any number of threads.  A step
    is what a thread does between taking `mq_mtx_` and releasing it or going to sleep.  A sleeper of a
    condition variable is un-notified until a notify_all or a spurious wake-up makes it ready to take
    the lock again. */
module BlockedMq {

  type Thread = nat

  /** `sleepPush` / `readyPush` hold the threads inside Push that sleep on `full_sign_` / were woken,
      with their data; `sleepPop` / `readyPop` those inside Pop.  `pushed` and `popped` are history
      variables. */
  datatype Monitor<T> = Monitor(
    capacity: nat,
    queue: seq<T>,
    done: bool,
    sleepPush: map<Thread, T>,
    readyPush: map<Thread, T>,
    sleepPop: set<Thread>,
    readyPop: set<Thread>,
    pushed: seq<T>,
    popped: seq<T>)

  /** From the loop test of line 65 on: sleep, or push and wake the poppers. */
  function PushSection<T>(m: Monitor<T>, t: Thread, x: T): Monitor<T> {
    if |m.queue| == m.capacity then m.(sleepPush := m.sleepPush[t := x])
    else m.(queue := m.queue + [x], pushed := m.pushed + [x],
            sleepPop := {}, readyPop := m.readyPop + m.sleepPop)
  }

  /** From the loop test of line 83 on: sleep, answer false, or pop and wake the pushers. */
  function PopSection<T>(m: Monitor<T>, t: Thread): Monitor<T> {
    if m.queue == [] then (if m.done then m else m.(sleepPop := m.sleepPop + {t}))
    else m.(queue := m.queue[1..], popped := m.popped + [m.queue[0]],
            sleepPush := map[], readyPush := m.readyPush + m.sleepPush)
  }

  predicate Outside<T>(m: Monitor<T>, t: Thread) {
    t !in m.sleepPush && t !in m.readyPush && t !in m.sleepPop && t !in m.readyPop
  }

  datatype Action<T> =
    | Push(t: Thread, x: T)
    | Pop(t: Thread)
    | Resume(t: Thread)       // a woken thread takes the lock and tests its loop condition again
    | Spurious(t: Thread)     // a sleeper wakes without a notify
    | SetDone

  function Step<T>(m: Monitor<T>, a: Action<T>): Monitor<T> {
    match a
    case Push(t, x) => if Outside(m, t) then PushSection(m, t, x) else m
    case Pop(t) => if Outside(m, t) then PopSection(m, t) else m
    case Resume(t) =>
      if t in m.readyPush then PushSection(m.(readyPush := m.readyPush - {t}), t, m.readyPush[t])
      else if t in m.readyPop then PopSection(m.(readyPop := m.readyPop - {t}), t)
      else m
    case Spurious(t) =>
      if t in m.sleepPush then m.(sleepPush := m.sleepPush - {t}, readyPush := m.readyPush[t := m.sleepPush[t]])
      else if t in m.sleepPop then m.(sleepPop := m.sleepPop - {t}, readyPop := m.readyPop + {t})
      else m
    case SetDone => m.(done := true)
  }

  function Run<T>(m: Monitor<T>, schedule: seq<Action<T>>): Monitor<T> {
    if schedule == [] then m else Step(Run(m, schedule[..|schedule| - 1]), schedule[|schedule| - 1])
  }

  function Fresh<T>(capacity: nat): Monitor<T> {
    Monitor(capacity, [], false, map[], map[], {}, {}, [], [])
  }

  ghost predicate Inv<T>(m: Monitor<T>) {
    && |m.queue| <= m.capacity
    && m.pushed == m.popped + m.queue
    && (m.sleepPush != map[] ==> |m.queue| == m.capacity)
    && (m.sleepPop != {} ==> m.queue == [])
  }

  lemma PushKeeps<T>(m: Monitor<T>, t: Thread, x: T)
    requires Inv(m)
    ensures Inv(PushSection(m, t, x)) && PushSection(m, t, x).capacity == m.capacity
  {
  }

  lemma PopKeeps<T>(m: Monitor<T>, t: Thread)
    requires Inv(m)
    ensures Inv(PopSection(m, t)) && PopSection(m, t).capacity == m.capacity
  {
  }

  lemma SpuriousWakeKeeps<T>(m: Monitor<T>, t: Thread)
    requires Inv(m)
    ensures Inv(Step(m, Spurious(t))) && Step(m, Spurious(t)).capacity == m.capacity
  {
    if t in m.sleepPush { assert m.sleepPush != map[]; }
  }

  lemma StepKeeps<T>(m: Monitor<T>, a: Action<T>)
    requires Inv(m)
    ensures Inv(Step(m, a)) && Step(m, a).capacity == m.capacity
  {
    hide PushSection, PopSection;
    match a
    case Push(t, x) => PushKeeps(m, t, x);
    case Pop(t) => PopKeeps(m, t);
    case Resume(t) =>
      if t in m.readyPush { PushKeeps(m.(readyPush := m.readyPush - {t}), t, m.readyPush[t]); }
      else { PopKeeps(m.(readyPop := m.readyPop - {t}), t); }
    case Spurious(t) => SpuriousWakeKeeps(m, t);
    case SetDone =>
  }

  lemma {:induction false} RunKeeps<T>(capacity: nat, schedule: seq<Action<T>>)
    ensures var m := Run(Fresh<T>(capacity), schedule); Inv(m) && m.capacity == capacity
  {
    hide Step;
    if schedule != [] {
      RunKeeps<T>(capacity, schedule[..|schedule| - 1]);
      StepKeeps(Run(Fresh<T>(capacity), schedule[..|schedule| - 1]), schedule[|schedule| - 1]);
    }
  }

  /** On every schedule of any number of pushers and poppers: the length never exceeds the capacity,
      what was popped is a prefix of what was pushed and the queue is the rest, a sleeping pusher
      nobody has notified means the queue is full, a sleeping popper means it is empty; so with room for
      one element pushers and poppers are never asleep together. */
  lemma EverySchedule<T>(capacity: nat, schedule: seq<Action<T>>)
    ensures var m := Run(Fresh<T>(capacity), schedule);
      && |m.queue| <= capacity
      && m.pushed == m.popped + m.queue
      && (m.sleepPush != map[] ==> |m.queue| == capacity)
      && (m.sleepPop != {} ==> m.queue == [])
      && (capacity >= 1 ==> m.sleepPush == map[] || m.sleepPop == {})
  {
    RunKeeps<T>(capacity, schedule);
  }

  // ------------------------------------------------------------------ the object

  datatype Outcome<T> = Asleep | Done | Took(data: T) | Refused

  /** The queue its methods update in place, one critical section at a time. */
  class BlockedMQ<T> {
    const maxQueueSize: nat
    var blockedMq: seq<T>
    var done: bool
    // threads waiting on full_sign_ and empty_sign_, asleep or woken
    var sleepPush: map<Thread, T>
    var readyPush: map<Thread, T>
    var sleepPop: set<Thread>
    var readyPop: set<Thread>
    ghost var pushed: seq<T>
    ghost var popped: seq<T>

    ghost function State(): Monitor<T>
      reads this
    {
      Monitor(maxQueueSize, blockedMq, done, sleepPush, readyPush, sleepPop, readyPop, pushed, popped)
    }

    constructor (size: nat)
      ensures State() == Fresh(size) && Inv(State())
    {
      maxQueueSize, blockedMq, done := size, [], false;
      sleepPush, readyPush, sleepPop, readyPop, pushed, popped := map[], map[], {}, {}, [], [];
    }

    /** Push from the loop test on, lines 65-71. */
    method Push(t: Thread, data: T) returns (r: Outcome<T>)
      requires Inv(State())
      modifies this
      ensures State() == PushSection(old(State()), t, data) && Inv(State())
      ensures r == if |old(blockedMq)| == maxQueueSize then Asleep else Done
      ensures r.Asleep? ==> t in sleepPush && sleepPush[t] == data && pushed == old(pushed)
      ensures r.Done? ==> pushed == old(pushed) + [data] && readyPop == old(readyPop) + old(sleepPop)
    {
      if |blockedMq| == maxQueueSize {
        sleepPush := sleepPush[t := data];
        return Asleep;
      }
      assert |blockedMq| < maxQueueSize;
      blockedMq := blockedMq + [data];
      pushed := pushed + [data];
      readyPop := readyPop + sleepPop;
      sleepPop := {};
      return Done;
    }

    /** Pop from the loop test on, lines 83-95: the oldest element, or false once `_done` is set. */
    method Pop(t: Thread) returns (r: Outcome<T>)
      requires Inv(State())
      modifies this
      ensures State() == PopSection(old(State()), t) && Inv(State())
      ensures r == if old(blockedMq) != [] then Took(old(blockedMq)[0]) else if done then Refused else Asleep
      ensures popped == if r.Took? then old(popped) + [r.data] else old(popped)
      ensures r.Asleep? ==> t in sleepPop
      ensures r.Took? ==> readyPush == old(readyPush) + old(sleepPush)
    {
      if blockedMq == [] {
        if !done {
          sleepPop := sleepPop + {t};
          return Asleep;
        }
        return Refused;
      }
      var data := blockedMq[0];
      blockedMq := blockedMq[1..];
      popped := popped + [data];
      readyPush := readyPush + sleepPush;
      sleepPush := map[];
      return Took(data);
    }

    /** A woken thread takes the lock again and goes back to the loop test. */
    method ResumePush(t: Thread) returns (r: Outcome<T>)
      requires Inv(State()) && t in readyPush
      modifies this
      ensures State() == Step(old(State()), Resume(t)) && Inv(State())
      ensures r == if |old(blockedMq)| == maxQueueSize then Asleep else Done
      ensures pushed == if r.Done? then old(pushed) + [old(readyPush)[t]] else old(pushed)
      ensures r.Asleep? ==> t in sleepPush && sleepPush[t] == old(readyPush)[t]
    {
      var data := readyPush[t];
      readyPush := readyPush - {t};
      r := Push(t, data);
    }

    method ResumePop(t: Thread) returns (r: Outcome<T>)
      requires Inv(State()) && t in readyPop && t !in readyPush
      modifies this
      ensures State() == Step(old(State()), Resume(t)) && Inv(State())
      ensures r == if old(blockedMq) != [] then Took(old(blockedMq)[0]) else if done then Refused else Asleep
      ensures popped == if r.Took? then old(popped) + [r.data] else old(popped)
      ensures r.Asleep? ==> t in sleepPop
    {
      readyPop := readyPop - {t};
      r := Pop(t);
    }

    method IsEmpty() returns (r: bool)
      requires Inv(State())
      ensures r <==> |pushed| == |popped|
    {
      r := blockedMq == [];
    }
  }

  // ------------------------------------------------------------------ RunTh1 and RunTh2

  const TH1: Thread := 1
  const TH2: Thread := 2

  /** mq_test.cc, lines 41-81, over this queue.  TTop: between pushes; TPush: inside Push. */
  datatype Th1 = TTop | TPush | TEnd

  datatype Th2 = UTop(last: bool) | UEmpty(last: bool) | UCall(last: bool) | UPop(last: bool) | UEnd

  datatype State<T> = State(m: Monitor<T>, next: nat, th1: Th1, th2: Th2)

  function AfterPush<T>(s: State<T>, m: Monitor<T>): State<T> {
    if TH1 in m.sleepPush then s.(m := m, th1 := TPush) else s.(m := m, next := s.next + 1, th1 := TTop)
  }

  function Th1Step<T>(s: State<T>, items: seq<T>): State<T> {
    match s.th1
    case TTop =>
      if s.next < |items| then AfterPush(s, Step(s.m, Push(TH1, items[s.next])))
      else s.(m := Step(s.m, SetDone), th1 := TEnd)
    case TPush => if TH1 in s.m.readyPush then AfterPush(s, Step(s.m, Resume(TH1))) else s
    case TEnd => s
  }

  function AfterPop<T>(s: State<T>, m: Monitor<T>, last: bool): State<T> {
    s.(m := m, th2 := if TH2 in m.sleepPop then UPop(last) else if last then UEnd else UTop(false))
  }

  function Th2Step<T>(s: State<T>): State<T> {
    match s.th2
    case UTop(last) => s.(th2 := if s.m.done then UEmpty(last) else UCall(last))
    case UEmpty(last) => s.(th2 := UCall(last || s.m.queue == []))
    case UCall(last) => AfterPop(s, Step(s.m, Pop(TH2)), last)
    case UPop(last) => if TH2 in s.m.readyPop then AfterPop(s, Step(s.m, Resume(TH2)), last) else s
    case UEnd => s
  }

  datatype Turn = RunTh1 | RunTh2 | WakeSpuriously(t: Thread)

  function TakeTurn<T>(s: State<T>, turn: Turn, items: seq<T>): State<T> {
    match turn
    case RunTh1 => Th1Step(s, items)
    case RunTh2 => Th2Step(s)
    case WakeSpuriously(t) => s.(m := Step(s.m, Spurious(t)))
  }

  function Turns<T>(s: State<T>, schedule: seq<Turn>, items: seq<T>): State<T> {
    if schedule == [] then s
    else TakeTurn(Turns(s, schedule[..|schedule| - 1], items), schedule[|schedule| - 1], items)
  }

  function Start<T>(capacity: nat): State<T> {
    State(Fresh(capacity), 0, TTop, UTop(false))
  }

  ghost predicate Progress<T>(s: State<T>, items: seq<T>) {
    && Inv(s.m)
    && s.next <= |items| && s.m.pushed == items[..s.next]
    && s.m.sleepPush.Keys + s.m.readyPush.Keys <= {TH1} && s.m.sleepPop + s.m.readyPop <= {TH2}
    && s.m.sleepPush.Keys !! s.m.readyPush.Keys && s.m.sleepPop !! s.m.readyPop
    && (match s.th1
        case TTop => Outside(s.m, TH1) && !s.m.done
        case TPush =>
          && s.next < |items| && !s.m.done
          && (TH1 in s.m.sleepPush || TH1 in s.m.readyPush)
          && (TH1 in s.m.sleepPush ==> s.m.sleepPush[TH1] == items[s.next])
          && (TH1 in s.m.readyPush ==> s.m.readyPush[TH1] == items[s.next])
        case TEnd => Outside(s.m, TH1) && s.m.done && s.next == |items|)
    && (match s.th2
        case UTop(last) => Outside(s.m, TH2) && !last
        case UEmpty(last) => Outside(s.m, TH2) && s.m.done && !last
        case UCall(last) => Outside(s.m, TH2) && (last ==> s.m.done && s.m.queue == [])
        case UPop(last) => !Outside(s.m, TH2) && !last
        case UEnd => Outside(s.m, TH2) && s.m.done && s.m.queue == [])
  }

  lemma Th1Keeps<T>(s: State<T>, items: seq<T>)
    requires Progress(s, items)
    ensures Progress(Th1Step(s, items), items)
  {
    if s.th1.TTop? && s.next < |items| { PushKeeps(s.m, TH1, items[s.next]); }
    if s.th1.TPush? && TH1 in s.m.readyPush { PushKeeps(s.m.(readyPush := s.m.readyPush - {TH1}), TH1, items[s.next]); }
    assert s.next < |items| ==> items[..s.next] + [items[s.next]] == items[..s.next + 1];
    hide Inv;
  }

  lemma Th2Keeps<T>(s: State<T>, items: seq<T>)
    requires Progress(s, items)
    ensures Progress(Th2Step(s), items)
  {
  }

  lemma SpuriousKeeps<T>(s: State<T>, items: seq<T>, t: Thread)
    requires Progress(s, items)
    ensures Progress(s.(m := Step(s.m, Spurious(t))), items)
  {
    SpuriousWakeKeeps(s.m, t);
    hide Inv;
  }

  lemma {:induction false} TurnsKeep<T>(capacity: nat, schedule: seq<Turn>, items: seq<T>)
    ensures Progress(Turns(Start<T>(capacity), schedule, items), items)
  {
    hide Th1Step, Th2Step, Step, Progress;
    if schedule == [] {
      StartProgress<T>(capacity, items);
    } else {
      TurnsKeep<T>(capacity, schedule[..|schedule| - 1], items);
      var s := Turns(Start<T>(capacity), schedule[..|schedule| - 1], items);
      match schedule[|schedule| - 1]
      case RunTh1 => Th1Keeps(s, items);
      case RunTh2 => Th2Keeps(s, items);
      case WakeSpuriously(t) => SpuriousKeeps(s, items, t);
    }
  }

  lemma StartProgress<T>(capacity: nat, items: seq<T>)
    ensures Progress(Start<T>(capacity), items)
  {
    assert items[..0] == [];
  }

  /** When the consumer's loop exits it has received every item exactly once and in order. */
  lemma ReceivesAll<T>(capacity: nat, schedule: seq<Turn>, items: seq<T>)
    ensures var s := Turns(Start<T>(capacity), schedule, items);
      && s.m.popped <= items
      && (s.th2.UEnd? ==> s.m.popped == items)
  {
    TurnsKeep<T>(capacity, schedule, items);
    hide Turns;
  }

  // ------------------------------------------------------------------ the consumer that never wakes

  /** The producer is through and the consumer sleeps: `_done` is set without a notify. */
  predicate Stranded<T>(s: State<T>) {
    s.th1.TEnd? && s.th2.UPop? && TH2 in s.m.sleepPop
  }

  lemma StrandedStep<T>(s: State<T>, turn: Turn, items: seq<T>)
    requires Stranded(s) && Progress(s, items) && turn != WakeSpuriously(TH2)
    ensures TakeTurn(s, turn, items).th1 == s.th1 && TakeTurn(s, turn, items).th2 == s.th2 && Stranded(TakeTurn(s, turn, items))
  {
  }

  /** The consumer running alone. */
  function ConsumerAlone<T>(s: State<T>, n: nat): State<T> {
    if n == 0 then s else Th2Step(ConsumerAlone(s, n - 1))
  }

  function Remaining<T>(s: State<T>): nat {
    var n := 4 * |s.m.queue|;
    match s.th2
    case UTop(_) => n + 3
    case UEmpty(_) => n + 2
    case UCall(last) => if last then n + 1 else if n == 0 then 4 else n + 1
    case UPop(_) => if n == 0 then 4 else n + 1
    case UEnd => 0
  }

  lemma ConsumerSpends<T>(s: State<T>, items: seq<T>)
    requires Progress(s, items) && s.th1.TEnd? && !Stranded(s) && !s.th2.UEnd?
    ensures Remaining(Th2Step(s)) < Remaining(s)
    ensures !Stranded(Th2Step(s)) && Th2Step(s).th1.TEnd?
  {
  }

  lemma {:induction false} FinishesAlone<T>(s: State<T>, items: seq<T>) returns (n: nat)
    requires Progress(s, items) && s.th1.TEnd? && !Stranded(s)
    ensures ConsumerAlone(s, n).th2.UEnd?
    decreases Remaining(s)
  {
    hide Progress, Th2Step, Stranded, Remaining;
    if s.th2.UEnd? {
      n := 0;
    } else {
      ConsumerSpends(s, items);
      Th2Keeps(s, items);
      n := FinishesAlone(Th2Step(s), items);
      AloneOn(s, n);
      n := n + 1;
    }
  }

  lemma {:induction false} AloneOn<T>(s: State<T>, n: nat)
    ensures ConsumerAlone(Th2Step(s), n) == ConsumerAlone(s, n + 1)
  {
    hide Th2Step;
    if n > 0 { AloneOn(s, n - 1); }
  }

  lemma {:induction false} StrandedAlone<T>(s: State<T>, items: seq<T>, n: nat)
    requires Stranded(s) && Progress(s, items)
    ensures ConsumerAlone(s, n) == s
  {
    if n > 0 { StrandedAlone(s, items, n - 1); }
  }

  /** Once the producer is through, the consumer comes to its end by itself exactly when it is not asleep in
      Pop at that moment. */
  lemma EndsUnlessStranded<T>(capacity: nat, schedule: seq<Turn>, items: seq<T>)
    ensures var s := Turns(Start<T>(capacity), schedule, items);
      s.th1.TEnd? ==> ((exists n: nat :: ConsumerAlone(s, n).th2.UEnd?) <==> !Stranded(s))
  {
    hide Turns, Start, Progress, Th2Step;
    TurnsKeep<T>(capacity, schedule, items);
    var s := Turns(Start<T>(capacity), schedule, items);
    if s.th1.TEnd? {
      if Stranded(s) {
        forall n: nat ensures !ConsumerAlone(s, n).th2.UEnd? { StrandedAlone(s, items, n); }
      } else {
        var n := FinishesAlone(s, items);
      }
    }
  }

  /** A stranded consumer stays stranded on every schedule without a spurious wake-up. */
  lemma {:induction false} StrandedForEver<T>(capacity: nat, schedule: seq<Turn>, more: seq<Turn>, items: seq<T>)
    requires Stranded(Turns(Start<T>(capacity), schedule, items)) && WakeSpuriously(TH2) !in more
    ensures Stranded(Turns(Start<T>(capacity), schedule + more, items))
    decreases |more|
  {
    hide Start, Progress, Stranded, TakeTurn;
    if more == [] {
      assert schedule + more == schedule;
    } else {
      var n := |more| - 1;
      assert (schedule + more)[..|schedule + more| - 1] == schedule + more[..n];
      assert more[n] in more;
      StrandedForEver(capacity, schedule, more[..n], items);
      TurnsKeep<T>(capacity, schedule + more[..n], items);
      StrandedStep(Turns(Start<T>(capacity), schedule + more[..n], items), more[n], items);
    }
  }

  /** Both idle, `i` items through. */
  function Through<T>(capacity: nat, items: seq<T>, i: nat): State<T>
    requires i <= |items|
  {
    State(Fresh<T>(capacity).(pushed := items[..i], popped := items[..i]), i, TTop, UTop(false))
  }

  lemma OneThrough<T>(capacity: nat, items: seq<T>, i: nat)
    requires capacity >= 1 && i < |items|
    ensures Th2Step(Th2Step(Th1Step(Through(capacity, items, i), items))) == Through(capacity, items, i + 1)
  {
    assert items[..i] + [items[i]] == items[..i + 1];
  }

  lemma {:induction false} GetsThrough<T>(capacity: nat, items: seq<T>, i: nat) returns (schedule: seq<Turn>)
    requires capacity >= 1 && i <= |items|
    ensures Turns(Start<T>(capacity), schedule, items) == Through(capacity, items, i)
  {
    if i == 0 {
      schedule := [];
    } else {
      hide Th1Step, Th2Step, Through, Start;
      var before := GetsThrough(capacity, items, i - 1);
      OneThrough(capacity, items, i - 1);
      schedule := before + [RunTh1, RunTh2, RunTh2];
      ThreeTurns(Start<T>(capacity), before, RunTh1, RunTh2, RunTh2, items);
    }
  }

  lemma OneTurn<T>(s: State<T>, before: seq<Turn>, x: Turn, items: seq<T>)
    ensures Turns(s, before + [x], items) == TakeTurn(Turns(s, before, items), x, items)
  {
    assert (before + [x])[..|before|] == before;
  }

  lemma ThreeTurns<T>(s: State<T>, before: seq<Turn>, x: Turn, y: Turn, z: Turn, items: seq<T>)
    ensures Turns(s, before + [x, y, z], items) == TakeTurn(TakeTurn(TakeTurn(Turns(s, before, items), x, items), y, items), z, items)
  {
    hide *;
    OneTurn(s, before, x, items);
    OneTurn(s, before + [x], y, items);
    OneTurn(s, before + [x] + [y], z, items);
    assert before + [x] + [y] + [z] == before + [x, y, z];
  }

  lemma Strands<T>(capacity: nat, items: seq<T>)
    ensures Stranded(TakeTurn(TakeTurn(TakeTurn(Through(capacity, items, |items|), RunTh2, items), RunTh2, items), RunTh1, items))
  {
    var s := Through(capacity, items, |items|);
    assert Th2Step(s) == s.(th2 := UCall(false));
    assert Th2Step(Th2Step(s)) == s.(th2 := UPop(false), m := s.m.(sleepPop := {TH2}));
  }

  /** It happens, with any items: the consumer has them all, finds the queue empty and goes to sleep just
      before the producer sets `_done`. */
  lemma CanBeStranded<T>(capacity: nat, items: seq<T>) returns (schedule: seq<Turn>)
    requires capacity >= 1
    ensures Stranded(Turns(Start<T>(capacity), schedule, items))
  {
    var before := GetsThrough(capacity, items, |items|);
    schedule := before + [RunTh2, RunTh2, RunTh1];
    ThreeTurns(Start<T>(capacity), before, RunTh2, RunTh2, RunTh1, items);
    Strands(capacity, items);
  }
}
