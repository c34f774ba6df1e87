/**
  thread_t/block_queue: a bounded queue behind one mutex and two condition variables, shared by any
  number of producers and consumers. A state holds the queue and the program counter of every
  thread; an action is one lock, test, transfer, signal, unlock or (spurious) wake-up.
*/
module BlockQueueModel {
  import opened Sums
  import opened Workers

  /** Where a thread is inside push (33-46) or pop (48-64). */
  datatype Pc =
    | Idle        // outside the queue
    | Entering    // called, has not got the mutex
    | Testing     // holds the mutex, about to run the while test
    | Moving      // test was false, about to enqueue or dequeue
    | Signalling  // moved its element, about to signal the other condition
    | Leaving     // about to unlock
    | Asleep      // inside pthread_cond_wait
    | Woken       // pthread_cond_wait has to get the mutex back

  type Thread<T> = Worker<T, Pc>

  datatype State<T> = State(
    cap: nat,
    q: seq<T>,
    mutex: Option<nat>,
    threads: seq<Thread<T>>,
    pushed: seq<(nat, T)>,  // history: who enqueued what, in order
    popped: seq<T>)         // history: what was dequeued, in order

  datatype Action =
    | Call(t: nat)
    | Lock(t: nat)
    | Test(t: nat)
    | Move(t: nat)
    | Signal(t: nat, wake: nat)
    | Unlock(t: nat)
    | Spurious(t: nat)

  // ---------------------------------------------------------------- the transition system

  predicate InCritical(pc: Pc) {
    pc.Testing? || pc.Moving? || pc.Signalling? || pc.Leaving?
  }

  predicate IsFull<T>(s: State<T>) {
    |s.q| == s.cap
  }

  predicate IsEmpty<T>(s: State<T>) {
    |s.q| == 0
  }

  /** The test of the wait loop of thread t: full for a producer, empty for a consumer. */
  predicate MustWait<T>(s: State<T>, t: nat)
    requires t < |s.threads|
  {
    if s.threads[t].job.Produce? then IsFull(s) else IsEmpty(s)
  }

  predicate SleepsAs<T>(th: Thread<T>, producer: bool) {
    th.pc.Asleep? && th.job.Produce? == producer
  }

  predicate Enabled<T>(s: State<T>, a: Action) {
    a.t < |s.threads| &&
    var th := s.threads[a.t];
    match a
    case Call(_) => th.pc.Idle? && th.job.Left() > 0
    case Lock(_) => (th.pc.Entering? || th.pc.Woken?) && s.mutex.None?
    case Test(_) => th.pc.Testing?
    case Move(_) => th.pc.Moving? && th.job.Left() > 0 && (th.job.Consume? ==> |s.q| > 0)
    case Signal(_, w) =>
      th.pc.Signalling? && w < |s.threads| &&
      // the woken thread sleeps on the other condition, unless nobody does
      (SleepsAs(s.threads[w], !th.job.Produce?) ||
       forall k :: 0 <= k < |s.threads| ==> !SleepsAs(s.threads[k], !th.job.Produce?))
    case Unlock(_) => th.pc.Leaving?
    case Spurious(_) => th.pc.Asleep?
  }

  function WithPc<T>(s: State<T>, t: nat, pc: Pc): State<T>
    requires t < |s.threads|
  {
    s.(threads := s.threads[t := s.threads[t].(pc := pc)])
  }

  function Apply<T>(s: State<T>, a: Action): State<T>
    requires Enabled(s, a)
  {
    var t := a.t;
    var th := s.threads[t];
    match a
    case Call(_) => WithPc(s, t, Entering)
    case Lock(_) => WithPc(s, t, Testing).(mutex := Some(t))
    case Test(_) => if MustWait(s, t) then WithPc(s, t, Asleep).(mutex := None) else WithPc(s, t, Moving)
    case Move(_) =>
      var threads := s.threads[t := Worker(th.job.Advance(), Signalling)];
      if th.job.Produce? then
        s.(threads := threads, q := s.q + [th.job.items[0]], pushed := s.pushed + [(t, th.job.items[0])])
      else
        s.(threads := threads, q := s.q[1..], popped := s.popped + [s.q[0]])
    case Signal(_, w) =>
      var s' := WithPc(s, t, Leaving);
      if SleepsAs(s.threads[w], !th.job.Produce?) then WithPc(s', w, Woken) else s'
    case Unlock(_) => WithPc(s, t, Idle).(mutex := None)
    case Spurious(_) => WithPc(s, t, Woken)
  }

  predicate IsInit<T>(s: State<T>) {
    s.q == [] && s.mutex.None? && s.pushed == [] && s.popped == [] &&
    forall t :: 0 <= t < |s.threads| ==> s.threads[t].pc.Idle?
  }

  /** The actions can be taken one after the other. */
  predicate IsRun<T>(s: State<T>, run: seq<Action>)
    decreases |run|
  {
    run == [] || (Enabled(s, run[0]) && IsRun(Apply(s, run[0]), run[1..]))
  }

  function After<T>(s: State<T>, run: seq<Action>): State<T>
    requires IsRun(s, run)
    decreases |run|
  {
    if run == [] then s else After(Apply(s, run[0]), run[1..])
  }

  // ---------------------------------------------------------------- safety

  /** Threads that will still look at the queue on behalf of the consumers (or of the producers). */
  function Attends<T>(th: Thread<T>, producer: bool): nat {
    if th.job.Produce? == producer then
      if th.pc.Woken? || th.pc.Testing? || th.pc.Moving? then 1 else 0
    else
      if th.pc.Signalling? then 1 else 0
  }

  function AttendsConsumers<T>(th: Thread<T>): nat { Attends(th, false) }

  function AttendsProducers<T>(th: Thread<T>): nat { Attends(th, true) }

  predicate ThreadOk<T>(s: State<T>, t: nat)
    requires t < |s.threads|
  {
    var th := s.threads[t];
    && (InCritical(th.pc) <==> s.mutex == Some(t))
    && (!th.pc.Idle? && !th.pc.Signalling? && !th.pc.Leaving? ==> th.job.Left() > 0)
    && (th.pc.Moving? ==> !MustWait(s, t))
    && (SleepsAs(th, false) ==> |s.q| <= Sum(s.threads, AttendsConsumers))
    && (SleepsAs(th, true) ==> s.cap - |s.q| <= Sum(s.threads, AttendsProducers))
  }

  ghost predicate Inv<T>(s: State<T>) {
    && |s.q| <= s.cap
    && Values(s.pushed) == s.popped + s.q
    && (s.mutex.Some? ==> s.mutex.value < |s.threads|)
    && forall t :: 0 <= t < |s.threads| ==> ThreadOk(s, t)
  }

  lemma InitInv<T>(s: State<T>)
    requires IsInit(s)
    ensures Inv(s)
  {
  }

  lemma AttendUpdate<T>(ts: seq<Thread<T>>, t: nat, th: Thread<T>)
    requires t < |ts|
    ensures Sum(ts[t := th], AttendsConsumers) + Attends(ts[t], false) == Sum(ts, AttendsConsumers) + Attends(th, false)
    ensures Sum(ts[t := th], AttendsProducers) + Attends(ts[t], true) == Sum(ts, AttendsProducers) + Attends(th, true)
  {
    SumUpdate(ts, AttendsConsumers, t, th);
    SumUpdate(ts, AttendsProducers, t, th);
  }

  /** Line 41 stores at the back; line 56 takes the oldest element not yet taken. */
  lemma MoveIsFifo<T>(s: State<T>, t: nat)
    requires Inv(s) && Enabled(s, Move(t))
    ensures var s' := Apply(s, Move(t));
      Values(s'.pushed) == s'.popped + s'.q &&
      if s.threads[t].job.Produce? then
        |s.q| < s.cap && s'.pushed == s.pushed + [(t, s.threads[t].job.items[0])] && s'.popped == s.popped
      else
        s'.pushed == s.pushed && |s.popped| < |s.pushed| && s'.popped == s.popped + [s.pushed[|s.popped|].1]
  {
    assert ThreadOk(s, t);
    if s.threads[t].job.Produce? {
      ValuesAppend(s.pushed, t, s.threads[t].job.items[0]);
    } else {
      assert Values(s.pushed)[|s.popped|] == s.q[0];
    }
  }

  /** How one action changes the number of threads that attend to each side. */
  lemma StepAttends<T>(s: State<T>, a: Action)
    requires Inv(s) && Enabled(s, a)
    ensures var s' := Apply(s, a); var th := s.threads[a.t];
      var dc := Sum(s'.threads, AttendsConsumers) - Sum(s.threads, AttendsConsumers);
      var dp := Sum(s'.threads, AttendsProducers) - Sum(s.threads, AttendsProducers);
      match a
      case Call(_) => dc == 0 && dp == 0
      case Lock(_) => dc >= 0 && dp >= 0
      case Test(_) =>
        && (dc == 0 || (MustWait(s, a.t) && th.job.Consume?))
        && (dp == 0 || (MustWait(s, a.t) && th.job.Produce?))
      case Move(_) => if th.job.Produce? then dc == 1 && dp == -1 else dc == -1 && dp == 1
      case Signal(_, w) =>
        var woke := SleepsAs(s.threads[w], !th.job.Produce?);
        (th.job.Produce? ==> dp == 0 && (woke ==> dc == 0)) && (th.job.Consume? ==> dc == 0 && (woke ==> dp == 0))
      case Unlock(_) => dc == 0 && dp == 0
      case Spurious(_) => dc >= 0 && dp >= 0
  {
    hide Sum;
    if a.Signal? {
      var left := WithPc(s, a.t, Leaving);
      AttendUpdate(s.threads, a.t, left.threads[a.t]);
      AttendUpdate(left.threads, a.wake, left.threads[a.wake].(pc := Woken));
    } else {
      AttendUpdate(s.threads, a.t, Apply(s, a).threads[a.t]);
    }
  }

  lemma StepInv<T>(s: State<T>, a: Action)
    requires Inv(s) && Enabled(s, a)
    ensures Inv(Apply(s, a))
  {
    hide Sum, Values, Attends, AttendsConsumers, AttendsProducers;
    var s' := Apply(s, a);
    assert ThreadOk(s, a.t);
    if a.Move? {
      MoveIsFifo(s, a.t);
    }
    StepAttends(s, a);
    forall t | 0 <= t < |s'.threads|
      ensures ThreadOk(s', t)
    {
      assert ThreadOk(s, t);
    }
  }

  /** The invariant holds after every run, from any state that has it. */
  lemma {:induction false} RunInv<T>(s: State<T>, run: seq<Action>)
    requires Inv(s) && IsRun(s, run)
    ensures Inv(After(s, run))
    decreases |run|
  {
    if run != [] {
      StepInv(s, run[0]);
      RunInv(Apply(s, run[0]), run[1..]);
    }
  }

  /** At most one thread is inside the critical section. */
  lemma MutualExclusion<T>(s: State<T>, run: seq<Action>, t: nat, u: nat)
    requires IsInit(s) && IsRun(s, run)
    requires t < |After(s, run).threads| && u < |After(s, run).threads|
    requires InCritical(After(s, run).threads[t].pc) && InCritical(After(s, run).threads[u].pc)
    ensures t == u
  {
    InitInv(s);
    RunInv(s, run);
    assert ThreadOk(After(s, run), t) && ThreadOk(After(s, run), u);
  }

  /** Whatever has been dequeued is a prefix of what was enqueued; the queue holds the rest, within capacity. */
  lemma FifoRefinement<T>(s: State<T>, run: seq<Action>)
    requires IsInit(s) && IsRun(s, run)
    ensures var e := After(s, run);
      Values(e.pushed) == e.popped + e.q && |e.q| <= e.cap == s.cap
  {
    InitInv(s);
    RunInv(s, run);
    RunKeepsShape(s, run);
  }

  lemma {:induction false} RunKeepsShape<T>(s: State<T>, run: seq<Action>)
    requires IsRun(s, run)
    ensures After(s, run).cap == s.cap && |After(s, run).threads| == |s.threads|
    decreases |run|
  {
    if run != [] {
      RunKeepsShape(Apply(s, run[0]), run[1..]);
    }
  }

  // ---------------------------------------------------------------- no lost wake-up

  function WokenAs<T>(th: Thread<T>, producer: bool): nat {
    if th.job.Produce? == producer && th.pc.Woken? then 1 else 0
  }

  function WokenConsumer<T>(th: Thread<T>): nat { WokenAs(th, false) }

  function WokenProducer<T>(th: Thread<T>): nat { WokenAs(th, true) }

  /**
    Outside the critical section, while a consumer sleeps there are at least as many woken consumers as
    elements in the queue, and while a producer sleeps at least as many woken producers as free places:
    spurious wake-ups and threads that overtake the woken ones do not break this.
  */
  lemma NoLostWakeup<T>(s: State<T>, run: seq<Action>, sleeper: nat)
    requires IsInit(s) && IsRun(s, run)
    requires After(s, run).mutex.None?
    requires sleeper < |After(s, run).threads| && After(s, run).threads[sleeper].pc.Asleep?
    ensures var e := After(s, run);
      if e.threads[sleeper].job.Consume? then |e.q| <= Sum(e.threads, WokenConsumer)
      else e.cap - |e.q| <= Sum(e.threads, WokenProducer)
  {
    InitInv(s);
    RunInv(s, run);
    var e := After(s, run);
    assert ThreadOk(e, sleeper);
    forall t | 0 <= t < |e.threads|
      ensures AttendsConsumers(e.threads[t]) == WokenConsumer(e.threads[t])
      ensures AttendsProducers(e.threads[t]) == WokenProducer(e.threads[t])
    {
      assert ThreadOk(e, t);
    }
    SumCongruent(e.threads, AttendsConsumers, WokenConsumer);
    SumCongruent(e.threads, AttendsProducers, WokenProducer);
  }

  // ---------------------------------------------------------------- conservation of work

  /** Pushes still to come, plus what is queued, minus pops still to come. */
  function Surplus<T>(s: State<T>): int {
    Sum(s.threads, PushesLeft) + |s.q| - Sum(s.threads, PopsLeft)
  }

  lemma StepKeepsSurplus<T>(s: State<T>, a: Action)
    requires Enabled(s, a)
    ensures Surplus(Apply(s, a)) == Surplus(s)
  {
    hide Sum;
    if a.Signal? {
      var left := WithPc(s, a.t, Leaving);
      var woken := left.threads[a.wake].(pc := Woken);
      SumUpdate(s.threads, PushesLeft, a.t, left.threads[a.t]);
      SumUpdate(s.threads, PopsLeft, a.t, left.threads[a.t]);
      SumUpdate(left.threads, PushesLeft, a.wake, woken);
      SumUpdate(left.threads, PopsLeft, a.wake, woken);
    } else {
      SumUpdate(s.threads, PushesLeft, a.t, Apply(s, a).threads[a.t]);
      SumUpdate(s.threads, PopsLeft, a.t, Apply(s, a).threads[a.t]);
    }
  }

  lemma StepKeepsStreams<T>(s: State<T>, a: Action, t: nat)
    requires Enabled(s, a) && t < |s.threads|
    ensures |Apply(s, a).threads| == |s.threads|
    ensures var s' := Apply(s, a); Stream(s'.pushed, s'.threads, t) == Stream(s.pushed, s.threads, t)
  {
    hide ItemsBy;
    if a.Move? && s.threads[a.t].job.Produce? {
      StreamKept(s.pushed, s.threads, a.t, Signalling, t);
    }
  }

  lemma {:induction false} RunKeepsSurplus<T>(s: State<T>, run: seq<Action>)
    requires IsRun(s, run)
    ensures Surplus(After(s, run)) == Surplus(s)
    decreases |run|
  {
    if run != [] {
      StepKeepsSurplus(s, run[0]);
      RunKeepsSurplus(Apply(s, run[0]), run[1..]);
    }
  }

  /** Nothing a producer has to push is lost, repeated or overtaken by a later item of the same producer. */
  lemma {:induction false} RunKeepsStreams<T>(s: State<T>, run: seq<Action>, t: nat)
    requires IsRun(s, run) && t < |s.threads|
    ensures |After(s, run).threads| == |s.threads|
    ensures var e := After(s, run); Stream(e.pushed, e.threads, t) == Stream(s.pushed, s.threads, t)
    decreases |run|
  {
    if run != [] {
      StepKeepsStreams(s, run[0], t);
      RunKeepsStreams(Apply(s, run[0]), run[1..], t);
    }
  }

  /** With capacity 0 no element ever moves. */
  lemma {:induction false} NoRoomNoMoves<T>(s: State<T>, run: seq<Action>)
    requires Inv(s) && IsRun(s, run) && s.cap == 0
    ensures Sum(After(s, run).threads, PushesLeft) == Sum(s.threads, PushesLeft)
    decreases |run|
  {
    if run != [] {
      StepWithoutRoom(s, run[0]);
      StepInv(s, run[0]);
      NoRoomNoMoves(Apply(s, run[0]), run[1..]);
    }
  }

  lemma StepWithoutRoom<T>(s: State<T>, a: Action)
    requires Inv(s) && Enabled(s, a) && s.cap == 0
    ensures Sum(Apply(s, a).threads, PushesLeft) == Sum(s.threads, PushesLeft)
  {
    hide Sum;
    assert !a.Move? by {
      assert ThreadOk(s, a.t);
    }
    if a.Signal? {
      var left := WithPc(s, a.t, Leaving);
      SumUpdate(s.threads, PushesLeft, a.t, left.threads[a.t]);
      SumUpdate(left.threads, PushesLeft, a.wake, left.threads[a.wake].(pc := Woken));
    } else {
      SumUpdate(s.threads, PushesLeft, a.t, Apply(s, a).threads[a.t]);
    }
  }

  // ---------------------------------------------------------------- progress

  predicate IsDone<T>(th: Thread<T>) {
    th.pc.Idle? && th.job.Left() == 0
  }

  ghost predicate AllDone<T>(s: State<T>) {
    forall t :: 0 <= t < |s.threads| ==> IsDone(s.threads[t])
  }

  /** No thread can go on unless a wake-up comes from nowhere. */
  ghost predicate Stuck<T>(s: State<T>) {
    forall a :: Enabled(s, a) ==> a.Spurious?
  }

  lemma StuckThread<T>(s: State<T>, t: nat)
    requires Inv(s) && Stuck(s) && t < |s.threads|
    ensures s.mutex.None?
    ensures s.threads[t].pc.Asleep? || IsDone(s.threads[t])
  {
    if s.mutex.Some? {
      var h := s.mutex.value;
      assert ThreadOk(s, h);
      HolderMoves(s, h);
    }
    assert ThreadOk(s, t);
    assert !Enabled(s, Call(t)) && !Enabled(s, Lock(t));
  }

  /** The holder of the mutex can always take its next step: no operation blocks inside the critical section. */
  lemma HolderMoves<T>(s: State<T>, h: nat)
    requires Inv(s) && s.mutex == Some(h)
    ensures exists a :: Enabled(s, a) && a.t == h && !a.Spurious?
  {
    var th := s.threads[h];
    assert ThreadOk(s, h);
    match th.pc
    case Testing => assert Enabled(s, Test(h));
    case Moving => assert Enabled(s, Move(h));
    case Leaving => assert Enabled(s, Unlock(h));
    case Signalling =>
      if w :| 0 <= w < |s.threads| && SleepsAs(s.threads[w], !th.job.Produce?) {
        assert Enabled(s, Signal(h, w));
      } else {
        assert Enabled(s, Signal(h, h));
      }
  }

  lemma NobodyAwake<T>(s: State<T>)
    requires Inv(s) && Stuck(s)
    ensures forall t :: 0 <= t < |s.threads| && SleepsAs(s.threads[t], false) ==> |s.q| == 0
    ensures forall t :: 0 <= t < |s.threads| && SleepsAs(s.threads[t], true) ==> |s.q| == s.cap
  {
    forall t | 0 <= t < |s.threads|
      ensures AttendsConsumers(s.threads[t]) == 0 && AttendsProducers(s.threads[t]) == 0
    {
      StuckThread(s, t);
    }
    SumZero(s.threads, AttendsConsumers);
    SumZero(s.threads, AttendsProducers);
    forall t | 0 <= t < |s.threads|
      ensures SleepsAs(s.threads[t], false) ==> |s.q| == 0
      ensures SleepsAs(s.threads[t], true) ==> |s.q| == s.cap
    {
      assert ThreadOk(s, t);
    }
  }

  /** A state from which nothing can go on has finished all its work exactly when the work fits. */
  lemma StuckMeansDone<T>(s: State<T>)
    requires Inv(s) && Stuck(s)
    ensures AllDone(s) <==> Fits(Sum(s.threads, PushesLeft), Surplus(s), s.cap)
  {
    NobodyAwake(s);
    if AllDone(s) {
      SumZero(s.threads, PushesLeft);
      SumZero(s.threads, PopsLeft);
    } else {
      var t :| 0 <= t < |s.threads| && !IsDone(s.threads[t]);
      StuckThread(s, t);
      assert ThreadOk(s, t);
      SumAtLeast(s.threads, PushesLeft, t);
      SumAtLeast(s.threads, PopsLeft, t);
      if s.cap > 0 {
        forall u | 0 <= u < |s.threads|
          ensures if s.threads[t].job.Consume? then PushesLeft(s.threads[u]) == 0 else PopsLeft(s.threads[u]) == 0
        {
          StuckThread(s, u);
        }
        if s.threads[t].job.Consume? {
          SumZero(s.threads, PushesLeft);
        } else {
          SumZero(s.threads, PopsLeft);
        }
      }
    }
  }

  /** A thread that is done has stored all its items, in order. */
  lemma DoneMeansStored<T>(s: State<T>, run: seq<Action>, t: nat)
    requires IsInit(s) && IsRun(s, run) && t < |s.threads| == |After(s, run).threads|
    requires IsDone(After(s, run).threads[t])
    ensures ItemsBy(After(s, run).pushed, t) == s.threads[t].job.Items()
  {
    RunKeepsStreams(s, run, t);
    var e := After(s, run);
    assert Stream(s.pushed, s.threads, t) == s.threads[t].job.Items();
    assert e.threads[t].job.Items() == [];
  }

  /**
    A maximal run finishes all the work exactly when the work fits. It then has moved every item once, each
    producer's items in its own order, and what was dequeued is what was enqueued except for the queued rest.
  */
  lemma MaximalRunCompletes<T>(s: State<T>, run: seq<Action>)
    requires IsInit(s) && IsRun(s, run) && Stuck(After(s, run))
    ensures var pushes, pops := Sum(s.threads, PushesLeft), Sum(s.threads, PopsLeft);
      AllDone(After(s, run)) <==> Fits(pushes, pushes - pops, s.cap)
    ensures AllDone(After(s, run)) ==>
      var e := After(s, run);
      && Values(e.pushed) == e.popped + e.q
      && |e.q| == Sum(s.threads, PushesLeft) - Sum(s.threads, PopsLeft)
      && |e.threads| == |s.threads|
      && forall t :: 0 <= t < |s.threads| ==> ItemsBy(e.pushed, t) == s.threads[t].job.Items()
  {
    hide Sum, ItemsBy, Values;
    var e := After(s, run);
    InitInv(s);
    RunInv(s, run);
    RunKeepsShape(s, run);
    RunKeepsSurplus(s, run);
    StuckMeansDone(e);
    if s.cap == 0 {
      NoRoomNoMoves(s, run);
    }
    if AllDone(e) {
      SumZero(e.threads, PushesLeft);
      SumZero(e.threads, PopsLeft);
      forall t | 0 <= t < |s.threads|
        ensures ItemsBy(e.pushed, t) == s.threads[t].job.Items()
      {
        DoneMeansStored(s, run, t);
      }
    }
  }

  // ---------------------------------------------------------------- termination

  /** Ten for each operation whose element has not moved, plus what is left of the current operation. */
  function Work<T>(th: Thread<T>): nat {
    10 * th.job.Left() +
    match th.pc
    case Asleep => 0
    case Testing => 2
    case Moving => 1
    case Entering | Woken => 3
    case Idle => 4
    case Leaving => 5
    case Signalling => 9
  }

  function SpuriousIn(run: seq<Action>): nat {
    if run == [] then 0 else (if run[0].Spurious? then 1 else 0) + SpuriousIn(run[1..])
  }

  lemma StepWorks<T>(s: State<T>, a: Action)
    requires Enabled(s, a)
    ensures if a.Spurious? then Sum(Apply(s, a).threads, Work) == Sum(s.threads, Work) + 3
            else Sum(Apply(s, a).threads, Work) < Sum(s.threads, Work)
  {
    hide Sum;
    if a.Signal? {
      var left := WithPc(s, a.t, Leaving);
      SumUpdate(s.threads, Work, a.t, left.threads[a.t]);
      SumUpdate(left.threads, Work, a.wake, left.threads[a.wake].(pc := Woken));
    } else {
      SumUpdate(s.threads, Work, a.t, Apply(s, a).threads[a.t]);
    }
  }

  /** No run is longer than the work it starts with, plus four steps for every spurious wake-up in it. */
  lemma {:induction false} RunIsBounded<T>(s: State<T>, run: seq<Action>)
    requires IsRun(s, run)
    ensures |run| + Sum(After(s, run).threads, Work) <= Sum(s.threads, Work) + 4 * SpuriousIn(run)
    decreases |run|
  {
    if run != [] {
      StepWorks(s, run[0]);
      RunIsBounded(Apply(s, run[0]), run[1..]);
    }
  }

  // ---------------------------------------------------------------- the object

  /**
    The queue object with the program counters of its callers. Each method is one atomic piece of push or
    pop run by thread t, and takes the object from one state of the transition system to the next.
  */
  class BlockQueue<T> {
    const cap: nat
    var q: seq<T>
    var mutex: Option<nat>
    var threads: seq<Thread<T>>
    ghost var pushed: seq<(nat, T)>
    ghost var popped: seq<T>

    ghost function View(): State<T>
      reads this
    {
      State(cap, q, mutex, threads, pushed, popped)
    }

    constructor (jobs: seq<Job<T>>, cap: nat := 5)
      ensures IsInit(View()) && View().cap == cap
      ensures |threads| == |jobs| && forall t :: 0 <= t < |jobs| ==> threads[t].job == jobs[t]
    {
      this.cap := cap;
      q, mutex := [], None;
      threads := seq(|jobs|, t requires 0 <= t < |jobs| => Worker(jobs[t], Idle));
      pushed, popped := [], [];
    }

    method GoTo(t: nat, pc: Pc)
      requires t < |threads|
      modifies this`threads
      ensures threads == old(threads)[t := old(threads[t]).(pc := pc)]
    {
      threads := threads[t := threads[t].(pc := pc)];
    }

    method Enter(t: nat)
      requires Enabled(View(), Call(t))
      modifies this
      ensures View() == Apply(old(View()), Call(t))
    {
      GoTo(t, Entering);
    }

    /** pthread_mutex_lock, or the end of pthread_cond_wait. */
    method AcquireMutex(t: nat)
      requires Enabled(View(), Lock(t))
      modifies this
      ensures View() == Apply(old(View()), Lock(t))
    {
      mutex := Some(t);
      GoTo(t, Testing);
    }

    /** One evaluation of the while test; if it is true, pthread_cond_wait gives the mutex up. */
    method TestOrWait(t: nat)
      requires Enabled(View(), Test(t))
      modifies this
      ensures View() == Apply(old(View()), Test(t))
    {
      var blocked := if threads[t].job.Produce? then |q| == cap else |q| == 0;
      if blocked {
        mutex := None;
        GoTo(t, Asleep);
      } else {
        GoTo(t, Moving);
      }
    }

    /** _q.push(data), or _q.front() followed by _q.pop(). */
    method MoveElement(t: nat) returns (taken: Option<T>)
      requires Enabled(View(), Move(t))
      modifies this
      ensures View() == Apply(old(View()), Move(t))
      ensures taken == if old(threads[t]).job.Consume? then Some(old(q[0])) else None
    {
      var job := threads[t].job;
      match job {
        case Produce(items) =>
          q := q + [items[0]];
          pushed := pushed + [(t, items[0])];
          taken := None;
        case Consume(_) =>
          taken := Some(q[0]);
          popped := popped + [q[0]];
          q := q[1..];
      }
      threads := threads[t := Worker(job.Advance(), Signalling)];
    }

    /** pthread_cond_signal on the other side's condition; `wake` is the sleeper the system chooses. */
    method SignalOther(t: nat, wake: nat)
      requires Enabled(View(), Signal(t, wake))
      modifies this
      ensures View() == Apply(old(View()), Signal(t, wake))
    {
      var wakes := SleepsAs(threads[wake], !threads[t].job.Produce?);
      GoTo(t, Leaving);
      if wakes {
        GoTo(wake, Woken);
      }
    }

    method ReleaseMutex(t: nat)
      requires Enabled(View(), Unlock(t))
      modifies this
      ensures View() == Apply(old(View()), Unlock(t))
    {
      mutex := None;
      GoTo(t, Idle);
    }

    method WakeSpuriously(t: nat)
      requires Enabled(View(), Spurious(t))
      modifies this
      ensures View() == Apply(old(View()), Spurious(t))
    {
      GoTo(t, Woken);
    }
  }
}
