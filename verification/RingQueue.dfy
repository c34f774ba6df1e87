/**
  thread_t/ring_queue: a ring of slots guarded by two counting semaphores, with one mutex for the
  producers and another for the consumers. An action is one sem_wait, lock, slot access, unlock or
  sem_post of one thread.
*/
module RingQueueModel {
  import opened Sums
  import opened Workers
  import Numbers

  /** Where a thread is inside push (61-69) or pop (71-80); `pos` is the position its slot access used. */
  datatype Pc =
    | Idle                // outside the queue
    | Admitted            // its sem_wait has returned
    | Accessing           // holds its side's mutex, about to touch the slot
    | Accessed(pos: nat)  // has touched the slot, still holds the mutex
    | Posting(pos: nat)   // has unlocked, about to sem_post the other semaphore

  type Thread<T> = Worker<T, Pc>

  datatype State<T> = State(
    cap: nat,
    slots: seq<T>,
    read: nat,
    write: nat,
    rPos: nat,
    wPos: nat,
    pMutex: Option<nat>,
    vMutex: Option<nat>,
    threads: seq<Thread<T>>,
    pushed: seq<(nat, T)>,  // history: who stored what, in the order of line 65
    popped: seq<T>)         // history: what line 75 selected, in order

  datatype Action = Wait(t: nat) | Lock(t: nat) | Access(t: nat) | Unlock(t: nat) | Post(t: nat)

  // ---------------------------------------------------------------- the transition system

  predicate WellFormed<T>(s: State<T>) {
    s.cap == |s.slots|
  }

  predicate Enabled<T>(s: State<T>, a: Action) {
    a.t < |s.threads| &&
    var th := s.threads[a.t];
    var p := th.job.Produce?;
    match a
    case Wait(_) => th.pc.Idle? && th.job.Left() > 0 && (if p then s.write else s.read) > 0
    case Lock(_) => th.pc.Admitted? && (if p then s.pMutex else s.vMutex).None?
    case Access(_) => th.pc.Accessing? && th.job.Left() > 0 && s.cap > 0   // the index is taken modulo the capacity
    case Unlock(_) => th.pc.Accessed?
    case Post(_) => th.pc.Posting?
  }

  function WithPc<T>(s: State<T>, t: nat, pc: Pc): State<T>
    requires t < |s.threads|
  {
    s.(threads := s.threads[t := s.threads[t].(pc := pc)])
  }

  function Apply<T>(s: State<T>, a: Action): (s': State<T>)
    requires WellFormed(s) && Enabled(s, a)
    ensures WellFormed(s') && s'.cap == s.cap && |s'.threads| == |s.threads|
  {
    var t := a.t;
    var th := s.threads[t];
    var p := th.job.Produce?;
    match a
    case Wait(_) =>
      var s' := WithPc(s, t, Admitted);
      if p then s'.(write := s.write - 1) else s'.(read := s.read - 1)
    case Lock(_) =>
      var s' := WithPc(s, t, Accessing);
      if p then s'.(pMutex := Some(t)) else s'.(vMutex := Some(t))
    case Access(_) =>
      var pos := if p then s.wPos else s.rPos;
      var s' := s.(threads := s.threads[t := Worker(th.job.Advance(), Accessed(pos))]);
      if p then
        s'.(slots := s.slots[s.wPos % s.cap := th.job.items[0]], wPos := s.wPos + 1,
            pushed := s.pushed + [(t, th.job.items[0])])
      else
        s'.(rPos := s.rPos + 1, popped := s.popped + [s.slots[s.rPos % s.cap]])
    case Unlock(_) =>
      var s' := WithPc(s, t, Posting(th.pc.pos));
      if p then s'.(pMutex := None) else s'.(vMutex := None)
    case Post(_) =>
      var s' := WithPc(s, t, Idle);
      if p then s'.(read := s.read + 1) else s'.(write := s.write + 1)
  }

  predicate IsInit<T>(s: State<T>) {
    && WellFormed(s) && s.read == 0 && s.write == s.cap && s.rPos == 0 && s.wPos == 0
    && s.pMutex.None? && s.vMutex.None? && s.pushed == [] && s.popped == []
    && forall t :: 0 <= t < |s.threads| ==> s.threads[t].pc.Idle?
  }

  predicate IsRun<T>(s: State<T>, run: seq<Action>)
    requires WellFormed(s)
    decreases |run|
  {
    run == [] || (Enabled(s, run[0]) && IsRun(Apply(s, run[0]), run[1..]))
  }

  function After<T>(s: State<T>, run: seq<Action>): (e: State<T>)
    requires WellFormed(s) && IsRun(s, run)
    ensures WellFormed(e) && e.cap == s.cap && |e.threads| == |s.threads|
    decreases |run|
  {
    if run == [] then s else After(Apply(s, run[0]), run[1..])
  }

  // ---------------------------------------------------------------- the permits in flight

  /** A permit taken by sem_wait and not yet given back by sem_post. */
  function Holding<T>(th: Thread<T>): nat {
    if th.pc.Idle? then 0 else 1
  }

  /** A producer that has stored its element and not yet posted _read. */
  function Unannounced<T>(th: Thread<T>): nat {
    if th.job.Produce? && (th.pc.Accessed? || th.pc.Posting?) then 1 else 0
  }

  /** A consumer that has been admitted to an element and not yet selected it. */
  function Claiming<T>(th: Thread<T>): nat {
    if th.job.Consume? && (th.pc.Admitted? || th.pc.Accessing?) then 1 else 0
  }

  /** A consumer that has selected its slot and not yet posted _write. */
  function Draining<T>(th: Thread<T>): nat {
    if th.job.Consume? && (th.pc.Accessed? || th.pc.Posting?) then 1 else 0
  }

  /** A producer that has been admitted to a slot and not yet filled it. */
  function Filling<T>(th: Thread<T>): nat {
    if th.job.Produce? && (th.pc.Admitted? || th.pc.Accessing?) then 1 else 0
  }

  predicate ThreadOk<T>(s: State<T>, t: nat)
    requires t < |s.threads|
  {
    var th := s.threads[t];
    && (th.pc.Accessing? || th.pc.Accessed? <==> (if th.job.Produce? then s.pMutex else s.vMutex) == Some(t))
    && (th.pc.Admitted? || th.pc.Accessing? ==> th.job.Left() > 0)
  }

  /** Each mutex is held by exactly the thread of its side that is between lock and unlock. */
  ghost predicate Locks<T>(s: State<T>) {
    && (s.pMutex.Some? ==> s.pMutex.value < |s.threads| && s.threads[s.pMutex.value].job.Produce?)
    && (s.vMutex.Some? ==> s.vMutex.value < |s.threads| && s.threads[s.vMutex.value].job.Consume?)
    && forall t :: 0 <= t < |s.threads| ==> ThreadOk(s, t)
  }

  /**
    Every place of the ring is free, promised to a producer, occupied by an announced or unannounced
    element, claimed by a consumer, or being drained.
  */
  predicate Permits<T>(s: State<T>) {
    && s.wPos - s.rPos == s.read + Sum(s.threads, Unannounced) + Sum(s.threads, Claiming)
    && s.cap == s.write + Sum(s.threads, Filling) + (s.wPos - s.rPos) + Sum(s.threads, Draining)
  }

  /** Element k of the history is in its slot. */
  ghost predicate Live<T>(s: State<T>, k: nat)
    requires WellFormed(s) && k < |s.pushed|
  {
    s.cap > 0 && s.slots[k % s.cap] == s.pushed[k].1
  }

  /** The oldest element that a consumer may still be looking at, if each looks at one of the last taken. */
  function Oldest<T>(s: State<T>): int {
    s.rPos - Sum(s.threads, Draining)
  }

  /** What was taken is what was stored, in order, and the slots hold the `cap` elements stored last. */
  ghost predicate Contents<T>(s: State<T>) {
    && WellFormed(s) && |s.pushed| == s.wPos && |s.popped| == s.rPos <= s.wPos
    && (s.cap == 0 ==> s.wPos == 0)
    && (forall t :: 0 <= t < |s.threads| && Draining(s.threads[t]) == 1 ==> s.threads[t].pc.pos < s.rPos)
    && (forall k :: 0 <= k < s.rPos ==> s.popped[k] == s.pushed[k].1)
    && (forall k :: 0 <= k && s.wPos - s.cap <= k < s.wPos ==> Live(s, k))
  }

  ghost predicate Inv<T>(s: State<T>) {
    Locks(s) && Permits(s) && Contents(s)
  }

  lemma InitInv<T>(s: State<T>)
    requires IsInit(s)
    ensures Inv(s)
  {
    SumZero(s.threads, Unannounced);
    SumZero(s.threads, Claiming);
    SumZero(s.threads, Draining);
    SumZero(s.threads, Filling);
  }

  lemma NoMultipleInside(cap: nat, m: int)
    ensures !(0 < cap * m < cap)
  {
    if m >= 1 {
      assert cap * m == cap + cap * (m - 1);
      assert cap * (m - 1) >= 0;
    } else {
      assert cap * m <= 0;
    }
  }

  lemma DifferentSlots(i: nat, j: nat, cap: nat)
    requires i < j < i + cap
    ensures i % cap != j % cap
  {
    var m := j / cap - i / cap;
    if i % cap == j % cap {
      assert j - i == cap * m by {
        assert j == cap * (j / cap) + j % cap;
        assert i == cap * (i / cap) + i % cap;
      }
      NoMultipleInside(cap, m);
    }
  }

  lemma StepPermits<T>(s: State<T>, a: Action)
    requires WellFormed(s) && Enabled(s, a)
    ensures var s' := Apply(s, a); var old', new' := s.threads[a.t], s'.threads[a.t];
      && Sum(s'.threads, Unannounced) + Unannounced(old') == Sum(s.threads, Unannounced) + Unannounced(new')
      && Sum(s'.threads, Claiming) + Claiming(old') == Sum(s.threads, Claiming) + Claiming(new')
      && Sum(s'.threads, Draining) + Draining(old') == Sum(s.threads, Draining) + Draining(new')
      && Sum(s'.threads, Filling) + Filling(old') == Sum(s.threads, Filling) + Filling(new')
  {
    var mine := Apply(s, a).threads[a.t];
    SumUpdate(s.threads, Unannounced, a.t, mine);
    SumUpdate(s.threads, Claiming, a.t, mine);
    SumUpdate(s.threads, Draining, a.t, mine);
    SumUpdate(s.threads, Filling, a.t, mine);
  }

  lemma StepLocks<T>(s: State<T>, a: Action)
    requires WellFormed(s) && Locks(s) && Enabled(s, a)
    ensures Locks(Apply(s, a))
  {
    hide Sum;
    var s' := Apply(s, a);
    assert ThreadOk(s, a.t);
    forall t | 0 <= t < |s'.threads|
      ensures ThreadOk(s', t)
    {
      if t != a.t {
        OtherThreadOk(s, a, t);
      }
    }
  }

  /** The steps that change a mutex are those of its holder, or taken while nobody holds it. */
  lemma OtherThreadOk<T>(s: State<T>, a: Action, t: nat)
    requires WellFormed(s) && Locks(s) && Enabled(s, a) && t < |s.threads| && t != a.t
    ensures ThreadOk(Apply(s, a), t)
  {
    assert ThreadOk(s, a.t) && ThreadOk(s, t);
  }

  lemma StepKeepsPermits<T>(s: State<T>, a: Action)
    requires WellFormed(s) && Permits(s) && Enabled(s, a)
    ensures Permits(Apply(s, a))
  {
    hide Sum;
    StepPermits(s, a);
  }

  /** A producer at line 65 has a free slot: the one it writes is outside the window that is still read or drained. */
  lemma StoreAvoidsWindow<T>(s: State<T>, t: nat, k: nat)
    requires WellFormed(s) && Permits(s) && Enabled(s, Access(t)) && s.threads[t].job.Produce?
    requires Oldest(s) <= k < s.wPos
    ensures k % s.cap != s.wPos % s.cap
  {
    SumAtLeast(s.threads, Filling, t);
    DifferentSlots(k, s.wPos, s.cap);
  }

  /** A consumer at line 75 selects the oldest element not yet taken. */
  lemma TakeIsNext<T>(s: State<T>, t: nat)
    requires Permits(s) && Contents(s) && Enabled(s, Access(t)) && s.threads[t].job.Consume?
    ensures s.rPos < s.wPos && s.slots[s.rPos % s.cap] == s.pushed[s.rPos].1
  {
    SumAtLeast(s.threads, Claiming, t);
    assert Live(s, s.rPos);
  }

  lemma StepKeepsContents<T>(s: State<T>, a: Action)
    requires Permits(s) && Contents(s) && Enabled(s, a)
    ensures Contents(Apply(s, a))
  {
    hide Sum;
    var s' := Apply(s, a);
    if a.Access? && s.threads[a.t].job.Consume? {
      TakeIsNext(s, a.t);
    }
    forall k | 0 <= k && s'.wPos - s'.cap <= k < s'.wPos
      ensures Live(s', k)
    {
      if k < s.wPos {
        assert Live(s, k);
        if s'.wPos > s.wPos {
          DifferentSlots(k, s.wPos, s.cap);
        }
      }
    }
  }

  lemma StepInv<T>(s: State<T>, a: Action)
    requires Inv(s) && Enabled(s, a)
    ensures Inv(Apply(s, a))
  {
    StepLocks(s, a);
    StepKeepsPermits(s, a);
    StepKeepsContents(s, a);
  }

  lemma {:induction false} RunInv<T>(s: State<T>, run: seq<Action>)
    requires Inv(s) && IsRun(s, run)
    ensures Inv(After(s, run))
    decreases |run|
  {
    if run != [] {
      StepInv(s, run[0]);
      RunInv(Apply(s, run[0]), run[1..]);
    }
  }

  // ---------------------------------------------------------------- what every run keeps

  /** Line 75 runs for the k-th time on the slot that holds the k-th element stored at line 65. */
  lemma FifoRefinement<T>(s: State<T>, run: seq<Action>)
    requires IsInit(s) && IsRun(s, run)
    ensures var e := After(s, run);
      && |e.popped| == e.rPos <= e.wPos == |e.pushed| <= e.rPos + s.cap
      && e.popped <= Values(e.pushed)
      && forall t: nat :: Enabled(e, Access(t)) && e.threads[t].job.Consume? ==>
           e.rPos < e.wPos && e.slots[e.rPos % e.cap] == e.pushed[e.rPos].1
  {
    InitInv(s);
    RunInv(s, run);
    var e := After(s, run);
    forall t: nat | Enabled(e, Access(t)) && e.threads[t].job.Consume?
      ensures e.rPos < e.wPos && e.slots[e.rPos % e.cap] == e.pushed[e.rPos].1
    {
      TakeIsNext(e, t);
    }
  }

  lemma {:induction false} HoldingSplits<T>(ts: seq<Thread<T>>)
    ensures Sum(ts, Holding) == Sum(ts, Unannounced) + Sum(ts, Claiming) + Sum(ts, Draining) + Sum(ts, Filling)
  {
    if |ts| > 0 {
      HoldingSplits(ts[1..]);
    }
  }

  /** The two semaphores and the permits held by threads in the middle of an operation always add up to the capacity. */
  lemma PermitConservation<T>(s: State<T>, run: seq<Action>)
    requires IsInit(s) && IsRun(s, run)
    ensures var e := After(s, run); e.read + e.write + Sum(e.threads, Holding) == s.cap
  {
    InitInv(s);
    RunInv(s, run);
    HoldingSplits(After(s, run).threads);
  }

  /** Two threads at a slot access are on different sides, and at different slots. */
  lemma SlotExclusion<T>(s: State<T>, run: seq<Action>, t: nat, u: nat)
    requires IsInit(s) && IsRun(s, run)
    requires var e := After(s, run); Enabled(e, Access(t)) && Enabled(e, Access(u)) && t != u
    ensures var e := After(s, run);
      && e.threads[t].job.Produce? != e.threads[u].job.Produce?
      && e.wPos % e.cap != e.rPos % e.cap
  {
    InitInv(s);
    RunInv(s, run);
    var e := After(s, run);
    assert ThreadOk(e, t) && ThreadOk(e, u);
    var p, c := if e.threads[t].job.Produce? then t else u, if e.threads[t].job.Produce? then u else t;
    SumAtLeast(e.threads, Claiming, c);
    StoreAvoidsWindow(e, p, e.rPos);
  }

  // ---------------------------------------------------------------- the reference that pop returns

  /** While d consumers are between lines 75 and 78, the d most recently selected slots are still intact. */
  lemma DrainedSlotsIntact<T>(s: State<T>, run: seq<Action>, k: nat)
    requires IsInit(s) && IsRun(s, run)
    requires var e := After(s, run); Oldest(e) <= k < e.rPos
    ensures var e := After(s, run); k < |e.popped| && e.cap > 0 && e.slots[k % e.cap] == e.popped[k]
  {
    InitInv(s);
    RunInv(s, run);
    assert Live(After(s, run), k);
  }

  /** A consumer that has not yet posted _write, and whose slot a producer has stored into again. */
  predicate Overwritten<T>(s: State<T>, t: nat) {
    t < |s.threads| && Draining(s.threads[t]) == 1 && s.threads[t].pc.pos + s.cap < s.wPos
  }

  lemma LastStoreInSlot(cap: nat, k: nat, w: nat) returns (later: nat)
    requires cap > 0 && k < w
    ensures w - cap <= later < w && later % cap == k % cap
    ensures later >= k && (k + cap < w ==> later >= k + cap) && (k + cap >= w ==> later == k)
    decreases w - k
  {
    if k + cap < w {
      later := LastStoreInSlot(cap, k + cap, w);
      NextTurn(k, cap);
    } else {
      later := k;
    }
  }

  lemma NextTurn(k: nat, cap: nat)
    requires cap > 0
    ensures (k + cap) % cap == k % cap
  {
    Numbers.Recompose(cap, k);
    assert k + cap == cap * (k / cap + 1) + k % cap;
    Numbers.Quotient(cap, k / cap + 1, k % cap, k + cap);
  }

  /** Until its consumer posts, a selected slot holds the element popped from it, or a later one if overwritten. */
  lemma ReferenceNames<T>(s: State<T>, run: seq<Action>, t: nat) returns (later: nat)
    requires IsInit(s) && IsRun(s, run)
    requires t < |After(s, run).threads| && Draining(After(s, run).threads[t]) == 1
    ensures var e := After(s, run); var k := e.threads[t].pc.pos;
      && k < |e.popped| <= |e.pushed| && e.popped[k] == e.pushed[k].1
      && e.cap > 0 && k <= later < |e.pushed| && e.slots[k % e.cap] == e.pushed[later].1
      && if Overwritten(e, t) then k + e.cap <= later else later == k
  {
    InitInv(s);
    RunInv(s, run);
    var e := After(s, run);
    later := LastStoreInSlot(e.cap, e.threads[t].pc.pos, e.wPos);
    assert Live(e, later);
  }

  /** Nobody but t has anything to pop, or there is room for one element only. */
  predicate Undisturbed<T>(s: State<T>, t: nat) {
    t < |s.threads| && (s.cap <= 1 || forall u :: 0 <= u < |s.threads| && u != t ==> PopsLeft(s.threads[u]) == 0)
  }

  predicate IsLastTaker<T>(s: State<T>, t: nat) {
    t < |s.threads| && (Draining(s.threads[t]) == 1 ==> s.threads[t].pc.pos + 1 == s.rPos)
  }

  lemma StepUndisturbed<T>(s: State<T>, a: Action, t: nat)
    requires Inv(s) && Enabled(s, a) && Undisturbed(s, t) && IsLastTaker(s, t)
    ensures Undisturbed(Apply(s, a), t) && IsLastTaker(Apply(s, a), t)
  {
    hide Sum;
    if a.Access? && a.t != t && s.threads[a.t].job.Consume? {
      SumAtLeast(s.threads, Claiming, a.t);
      SumAtLeast(s.threads, Draining, t);
    }
  }

  lemma {:induction false} RunUndisturbed<T>(s: State<T>, run: seq<Action>, t: nat)
    requires Inv(s) && IsRun(s, run) && Undisturbed(s, t) && IsLastTaker(s, t)
    ensures IsLastTaker(After(s, run), t)
    decreases |run|
  {
    if run != [] {
      StepUndisturbed(s, run[0], t);
      StepInv(s, run[0]);
      RunUndisturbed(Apply(s, run[0]), run[1..], t);
    }
  }

  /** A thread without pops to make never comes to select a slot. */
  lemma {:induction false} NothingToSelect<T>(s: State<T>, run: seq<Action>, t: nat)
    requires WellFormed(s) && IsRun(s, run) && t < |s.threads|
    requires PopsLeft(s.threads[t]) == 0 && Draining(s.threads[t]) == 0
    ensures Draining(After(s, run).threads[t]) == 0
    decreases |run|
  {
    if run != [] {
      NothingToSelect(Apply(s, run[0]), run[1..], t);
    }
  }

  lemma {:induction false} RunKeepsPushes<T>(s: State<T>, run: seq<Action>)
    requires WellFormed(s) && IsRun(s, run)
    ensures Sum(After(s, run).threads, PushesLeft) + After(s, run).wPos == Sum(s.threads, PushesLeft) + s.wPos
    decreases |run|
  {
    hide Sum;
    if run != [] {
      SumUpdate(s.threads, PushesLeft, run[0].t, Apply(s, run[0]).threads[run[0].t]);
      RunKeepsPushes(Apply(s, run[0]), run[1..]);
    }
  }

  predicate TwoConsumers<T>(s: State<T>, a: nat, b: nat) {
    a < |s.threads| && b < |s.threads| && a != b && PopsLeft(s.threads[a]) > 0 && PopsLeft(s.threads[b]) > 0
  }

  /** An overwritten slot takes two places, more pushes than places, and another consumer. */
  lemma OverwrittenTakes<T>(s: State<T>, run: seq<Action>, t: nat)
    requires IsInit(s) && IsRun(s, run) && Overwritten(After(s, run), t)
    ensures s.cap >= 2 && Sum(s.threads, PushesLeft) > s.cap && exists u :: TwoConsumers(s, t, u)
  {
    InitInv(s);
    RunInv(s, run);
    RunKeepsPushes(s, run);
    var e := After(s, run);
    SumAtLeast(e.threads, Draining, t);
    if Undisturbed(s, t) {
      RunUndisturbed(s, run, t);
      assert false;
    }
    if PopsLeft(s.threads[t]) == 0 {
      NothingToSelect(s, run, t);
      assert false;
    }
    var u :| 0 <= u < |s.threads| && u != t && PopsLeft(s.threads[u]) > 0;
    assert TwoConsumers(s, t, u);
  }

  lemma {:induction false} RunThenRun<T>(s: State<T>, first: seq<Action>, second: seq<Action>)
    requires WellFormed(s) && IsRun(s, first) && IsRun(After(s, first), second)
    ensures IsRun(s, first + second) && After(s, first + second) == After(After(s, first), second)
    decreases |first|
  {
    if first == [] {
      assert first + second == second;
    } else {
      assert (first + second)[1..] == first[1..] + second;
      RunThenRun(Apply(s, first[0]), first[1..], second);
    }
  }

  /** The first steps of one operation of thread t. */
  function Steps(t: nat, count: nat): seq<Action>
    requires count <= 5
  {
    [Wait(t), Lock(t), Access(t), Unlock(t), Post(t)][..count]
  }

  /** Nobody is inside a critical section, and there is a place to use. */
  predicate Quiet<T>(s: State<T>) {
    WellFormed(s) && s.cap > 0 && s.pMutex.None? && s.vMutex.None?
  }

  /** The state that an operation of t reaches when nobody interferes. */
  function Alone<T>(s: State<T>, t: nat, count: nat): (e: State<T>)
    requires Quiet(s) && Enabled(s, Wait(t)) && count <= 5
    ensures WellFormed(e) && |e.threads| == |s.threads|
    ensures 0 < count < 5 ==> Enabled(e, Steps(t, 5)[count])
  {
    if count == 0 then s
    else if count == 1 then Apply(s, Wait(t))
    else Apply(Alone(s, t, count - 1), Steps(t, 5)[count - 1])
  }

  lemma {:induction false} AloneIsRun<T>(s: State<T>, t: nat, count: nat)
    requires Quiet(s) && Enabled(s, Wait(t)) && count <= 5
    ensures IsRun(s, Steps(t, count)) && After(s, Steps(t, count)) == Alone(s, t, count)
  {
    if count > 0 {
      AloneIsRun(s, t, count - 1);
      var last := Steps(t, 5)[count - 1];
      var e := Alone(s, t, count - 1);
      assert Apply(e, last) == After(Apply(e, last), [last][1..]);
      assert Steps(t, count) == Steps(t, count - 1) + [last];
      RunThenRun(s, Steps(t, count - 1), [last]);
    }
  }

  /** The effect of an undisturbed operation up to its sem_post, with the thread left at pc. */
  function Touched<T>(s: State<T>, t: nat, pc: Pc): State<T>
    requires Quiet(s) && Enabled(s, Wait(t))
  {
    var job := s.threads[t].job;
    var s' := s.(threads := s.threads[t := Worker(job.Advance(), pc)]);
    if job.Produce? then
      s'.(slots := s.slots[s.wPos % s.cap := job.items[0]], write := s.write - 1, wPos := s.wPos + 1,
          pushed := s.pushed + [(t, job.items[0])])
    else
      s'.(read := s.read - 1, rPos := s.rPos + 1, popped := s.popped + [s.slots[s.rPos % s.cap]])
  }

  /** The effect of an undisturbed operation. */
  function Operated<T>(s: State<T>, t: nat): State<T>
    requires Quiet(s) && Enabled(s, Wait(t))
  {
    var e := Touched(s, t, Idle);
    if s.threads[t].job.Produce? then e.(read := s.read + 1) else e.(write := s.write + 1)
  }

  lemma AloneEffect<T>(s: State<T>, t: nat)
    requires Quiet(s) && Enabled(s, Wait(t))
    ensures Alone(s, t, 4) == Touched(s, t, Posting(if s.threads[t].job.Produce? then s.wPos else s.rPos))
    ensures Alone(s, t, 5) == Operated(s, t)
  {
    var p := s.threads[t].job.Produce?;
    assert Alone(s, t, 2) == WithPc(Alone(s, t, 1), t, Accessing).(pMutex := if p then Some(t) else None,
                                                                   vMutex := if p then None else Some(t));
    var e := Touched(s, t, Accessed(if p then s.wPos else s.rPos));
    assert Alone(s, t, 3) == if p then e.(pMutex := Some(t)) else e.(vMutex := Some(t));
  }

  /** A run can be prolonged by an undisturbed operation of one thread. */
  lemma Operate<T>(s: State<T>, run: seq<Action>, t: nat) returns (longer: seq<Action>)
    requires WellFormed(s) && IsRun(s, run) && Quiet(After(s, run)) && Enabled(After(s, run), Wait(t))
    ensures IsRun(s, longer) && After(s, longer) == Operated(After(s, run), t)
  {
    AloneIsRun(After(s, run), t, 5);
    RunThenRun(s, run, Steps(t, 5));
    longer := run + Steps(t, 5);
    AloneEffect(After(s, run), t);
  }

  /** Or by one that stops short of its sem_post. */
  lemma OperateSlowly<T>(s: State<T>, run: seq<Action>, t: nat) returns (longer: seq<Action>)
    requires WellFormed(s) && IsRun(s, run) && Quiet(After(s, run)) && Enabled(After(s, run), Wait(t))
    requires After(s, run).threads[t].job.Consume?
    ensures IsRun(s, longer) && After(s, longer) == Touched(After(s, run), t, Posting(After(s, run).rPos))
  {
    AloneIsRun(After(s, run), t, 4);
    RunThenRun(s, run, Steps(t, 4));
    longer := run + Steps(t, 4);
    AloneEffect(After(s, run), t);
  }

  predicate ProducersIdle<T>(s: State<T>) {
    forall u :: 0 <= u < |s.threads| && s.threads[u].job.Produce? ==> s.threads[u].pc.Idle?
  }

  ghost predicate SameConsumers<T>(s: State<T>, e: State<T>) {
    && |s.threads| == |e.threads| && s.rPos == e.rPos
    && forall u :: 0 <= u < |s.threads| && s.threads[u].job.Consume? ==> e.threads[u] == s.threads[u]
  }

  /** Idle producers can store as many elements as they have and as there are places for. */
  lemma Fill<T>(s: State<T>, run: seq<Action>, count: nat) returns (longer: seq<Action>)
    requires WellFormed(s) && IsRun(s, run) && Quiet(After(s, run)) && ProducersIdle(After(s, run))
    requires var e := After(s, run); count <= e.write && count <= Sum(e.threads, PushesLeft)
    ensures IsRun(s, longer) && Quiet(After(s, longer)) && ProducersIdle(After(s, longer))
    ensures var e, e' := After(s, run), After(s, longer);
      && e'.wPos == e.wPos + count && e'.write == e.write - count && e'.read == e.read + count && SameConsumers(e, e')
    decreases count
  {
    hide IsRun, After;
    if count == 0 {
      longer := run;
    } else {
      var e := After(s, run);
      var p := SumWitness(e.threads, PushesLeft);
      longer := Operate(s, run, p);
      SumUpdate(e.threads, PushesLeft, p, Worker(e.threads[p].job.Advance(), Idle));
      longer := Fill(s, longer, count - 1);
    }
  }

  /**
    The slow consumer a selects the first slot and stops, b takes the second element and gives its place back, and
    the producers go round the ring into the first slot.
  */
  lemma Overtake<T>(s: State<T>, a: nat, b: nat) returns (run: seq<Action>)
    requires IsInit(s) && s.cap >= 2 && Sum(s.threads, PushesLeft) > s.cap && TwoConsumers(s, a, b)
    ensures IsRun(s, run) && Overwritten(After(s, run), a)
  {
    hide Sum, Inv;
    run := Fill(s, [], 2);
    run := OperateSlowly(s, run, a);
    run := Operate(s, run, b);
    RunKeepsPushes(s, run);
    run := Fill(s, run, s.cap - 1);
  }

  /** Some run overwrites a slot before the consumer that selected it posts. */
  ghost predicate MayOverwrite<T>(s: State<T>)
    requires WellFormed(s)
  {
    exists run, t :: IsRun(s, run) && Overwritten(After(s, run), t)
  }

  /**
    A popped reference can be overwritten before its consumer posts if and only if there are at least two places,
    more pushes than places, and two consumers with something to pop.
  */
  lemma WhenOverwritten<T>(s: State<T>)
    requires IsInit(s)
    ensures MayOverwrite(s) <==>
      s.cap >= 2 && Sum(s.threads, PushesLeft) > s.cap && exists a, b :: TwoConsumers(s, a, b)
  {
    hide Sum;
    if MayOverwrite(s) {
      var run, t :| IsRun(s, run) && Overwritten(After(s, run), t);
      OverwrittenTakes(s, run, t);
    }
    if s.cap >= 2 && Sum(s.threads, PushesLeft) > s.cap && exists a, b :: TwoConsumers(s, a, b) {
      var a, b :| TwoConsumers(s, a, b);
      var run := Overtake(s, a, b);
      assert Overwritten(After(s, run), a);
    }
  }

  /** Without those, whatever the run, a consumer that has not posted finds the element it popped. */
  lemma ReferenceIsSafe<T>(s: State<T>, run: seq<Action>, t: nat)
    requires IsInit(s) && IsRun(s, run)
    requires s.cap < 2 || Sum(s.threads, PushesLeft) <= s.cap || forall a, b :: !TwoConsumers(s, a, b)
    requires t < |After(s, run).threads| && Draining(After(s, run).threads[t]) == 1
    ensures var e := After(s, run); var k := e.threads[t].pc.pos;
      k < |e.popped| && e.cap > 0 && e.slots[k % e.cap] == e.popped[k]
  {
    if Overwritten(After(s, run), t) {
      OverwrittenTakes(s, run, t);
      assert false;
    }
    var _ := ReferenceNames(s, run, t);
  }

  /** The elements that a single producer p has stored and has still to store are its items. */
  lemma {:induction false} OnlyProducer<T>(s: State<T>, run: seq<Action>, p: nat)
    requires WellFormed(s) && IsRun(s, run) && p < |s.threads|
    requires forall u :: 0 <= u < |s.threads| && u != p ==> PushesLeft(s.threads[u]) == 0
    ensures var e := After(s, run);
      Values(e.pushed) + e.threads[p].job.Items() == Values(s.pushed) + s.threads[p].job.Items()
    decreases |run|
  {
    if run != [] {
      var a := run[0];
      if a.Access? && a.t == p && s.threads[p].job.Produce? {
        ValuesAppend(s.pushed, p, s.threads[p].job.items[0]);
        Regroup(Values(s.pushed), s.threads[p].job.items);
      }
      OnlyProducer(Apply(s, a), run[1..], p);
    }
  }

  /** One producer with three items and two consumers at a ring of two places. */
  const SMALL: State<int> :=
    State(2, [0, 0], 0, 2, 0, 0, None, None,
          [Worker(Produce([7, 8, 9]), Idle), Worker(Consume(1), Idle), Worker(Consume(1), Idle)], [], [])

  /** Here a consumer that popped the 7 can find the 9 in its place. */
  lemma StaleReference() returns (run: seq<Action>, slow: nat)
    ensures IsInit(SMALL) && IsRun(SMALL, run) && slow < |SMALL.threads|
    ensures var e := After(SMALL, run);
      && Draining(e.threads[slow]) == 1 && e.threads[slow].pc.pos == 0
      && |e.popped| > 0 && e.popped[0] == 7 && e.slots[0] == 9
  {
    slow := 1;
    run := Overtake(SMALL, 1, 2);
    var later := ReferenceNames(SMALL, run, 1);
    OnlyProducer(SMALL, run, 0);
    var e := After(SMALL, run);
    var all := Values(e.pushed) + e.threads[0].job.Items();
    assert all == [7, 8, 9];
    assert e.pushed[later].1 == all[later] && e.pushed[0].1 == all[0] && later == 2;
  }

  // ---------------------------------------------------------------- conservation of work

  /** Pushes still to come, plus what is stored and not taken, minus pops still to come. */
  function Surplus<T>(s: State<T>): int {
    Sum(s.threads, PushesLeft) + s.wPos - s.rPos - Sum(s.threads, PopsLeft)
  }

  lemma StepKeepsSurplus<T>(s: State<T>, a: Action)
    requires WellFormed(s) && Enabled(s, a)
    ensures Surplus(Apply(s, a)) == Surplus(s)
  {
    var mine := Apply(s, a).threads[a.t];
    SumUpdate(s.threads, PushesLeft, a.t, mine);
    SumUpdate(s.threads, PopsLeft, a.t, mine);
  }

  lemma {:induction false} RunKeepsSurplus<T>(s: State<T>, run: seq<Action>)
    requires WellFormed(s) && IsRun(s, run)
    ensures Surplus(After(s, run)) == Surplus(s)
    decreases |run|
  {
    if run != [] {
      StepKeepsSurplus(s, run[0]);
      RunKeepsSurplus(Apply(s, run[0]), run[1..]);
    }
  }

  lemma StepKeepsStreams<T>(s: State<T>, a: Action, t: nat)
    requires WellFormed(s) && Enabled(s, a) && t < |s.threads|
    ensures var s' := Apply(s, a); Stream(s'.pushed, s'.threads, t) == Stream(s.pushed, s.threads, t)
  {
    hide ItemsBy;
    if a.Access? && s.threads[a.t].job.Produce? {
      StreamKept(s.pushed, s.threads, a.t, Accessed(s.wPos), t);
    }
  }

  /** Nothing a producer has to push is lost, repeated or overtaken by a later item of the same producer. */
  lemma {:induction false} RunKeepsStreams<T>(s: State<T>, run: seq<Action>, t: nat)
    requires WellFormed(s) && IsRun(s, run) && t < |s.threads|
    ensures |After(s, run).threads| == |s.threads|
    ensures var e := After(s, run); Stream(e.pushed, e.threads, t) == Stream(s.pushed, s.threads, t)
    decreases |run|
  {
    if run != [] {
      StepKeepsStreams(s, run[0], t);
      RunKeepsStreams(Apply(s, run[0]), run[1..], t);
    }
  }

  // ---------------------------------------------------------------- progress and termination

  predicate IsDone<T>(th: Thread<T>) {
    th.pc.Idle? && th.job.Left() == 0
  }

  ghost predicate AllDone<T>(s: State<T>) {
    forall t :: 0 <= t < |s.threads| ==> IsDone(s.threads[t])
  }

  ghost predicate Stuck<T>(s: State<T>) {
    forall a :: !Enabled(s, a)
  }

  /** The holder of a mutex can always take its next step. */
  lemma HolderMoves<T>(s: State<T>, h: nat)
    requires Inv(s) && (s.pMutex == Some(h) || s.vMutex == Some(h))
    ensures exists a :: Enabled(s, a) && a.t == h
  {
    assert ThreadOk(s, h);
    SumAtLeast(s.threads, Filling, h);
    SumAtLeast(s.threads, Claiming, h);
    assert Enabled(s, if s.threads[h].pc.Accessing? then Access(h) else Unlock(h));
  }

  /** In a stuck state nobody is in the middle of an operation: whoever is not done waits for a semaphore at zero. */
  lemma StuckThread<T>(s: State<T>, t: nat)
    requires Inv(s) && Stuck(s) && t < |s.threads|
    ensures s.threads[t].pc.Idle?
    ensures s.threads[t].job.Left() > 0 ==> (if s.threads[t].job.Produce? then s.write else s.read) == 0
  {
    if s.pMutex.Some? {
      HolderMoves(s, s.pMutex.value);
    }
    if s.vMutex.Some? {
      HolderMoves(s, s.vMutex.value);
    }
    assert ThreadOk(s, t);
    assert !Enabled(s, Wait(t)) && !Enabled(s, Lock(t)) && !Enabled(s, Post(t));
  }

  /** A state from which nothing can go on has finished all its work exactly when the work fits. */
  lemma StuckMeansDone<T>(s: State<T>)
    requires Inv(s) && Stuck(s)
    ensures AllDone(s) <==> Fits(Sum(s.threads, PushesLeft), Surplus(s), s.cap)
  {
    forall u | 0 <= u < |s.threads|
      ensures s.threads[u].pc.Idle?
    {
      StuckThread(s, u);
    }
    SumZero(s.threads, Unannounced);
    SumZero(s.threads, Claiming);
    SumZero(s.threads, Draining);
    SumZero(s.threads, Filling);
    if AllDone(s) {
      SumZero(s.threads, PushesLeft);
      SumZero(s.threads, PopsLeft);
    } else {
      var t :| 0 <= t < |s.threads| && !IsDone(s.threads[t]);
      StuckThread(s, t);
      SumAtLeast(s.threads, PushesLeft, t);
      SumAtLeast(s.threads, PopsLeft, t);
      if s.cap > 0 {
        forall u | 0 <= u < |s.threads|
          ensures if s.threads[t].job.Consume? then PushesLeft(s.threads[u]) == 0 else PopsLeft(s.threads[u]) == 0
        {
          StuckThread(s, u);
        }
        if s.threads[t].job.Consume? {
          SumZero(s.threads, PushesLeft);
        } else {
          SumZero(s.threads, PopsLeft);
        }
      }
    }
  }

  /** Five steps an operation: this many are left to a thread, up to a constant. */
  function Work<T>(th: Thread<T>): nat {
    5 * th.job.Left() +
    match th.pc
    case Idle => 2
    case Admitted => 1
    case Accessing => 0
    case Accessed(_) => 4
    case Posting(_) => 3
  }

  /** Every step uses up exactly one unit of work, so no run is longer than the work it starts with. */
  lemma {:induction false} RunUsesWork<T>(s: State<T>, run: seq<Action>)
    requires WellFormed(s) && IsRun(s, run)
    ensures |run| + Sum(After(s, run).threads, Work) == Sum(s.threads, Work)
    decreases |run|
  {
    hide Sum;
    if run != [] {
      SumUpdate(s.threads, Work, run[0].t, Apply(s, run[0]).threads[run[0].t]);
      RunUsesWork(Apply(s, run[0]), run[1..]);
    }
  }

  /** A thread that is done has stored all its items, in order. */
  lemma DoneMeansStored<T>(s: State<T>, run: seq<Action>, t: nat)
    requires IsInit(s) && IsRun(s, run) && t < |s.threads| == |After(s, run).threads|
    requires IsDone(After(s, run).threads[t])
    ensures ItemsBy(After(s, run).pushed, t) == s.threads[t].job.Items()
  {
    RunKeepsStreams(s, run, t);
    var e := After(s, run);
    assert Stream(s.pushed, s.threads, t) == s.threads[t].job.Items();
    assert e.threads[t].job.Items() == [];
  }

  /**
    A maximal run finishes all the work exactly when the work fits: pushes minus pops lies between 0 and the
    capacity, and with capacity 0 there is nothing to push. It then has moved every item once, each
    producer's items in its own order, and what is not taken is still in the ring.
  */
  lemma MaximalRunCompletes<T>(s: State<T>, run: seq<Action>)
    requires IsInit(s) && IsRun(s, run) && Stuck(After(s, run))
    ensures var pushes, pops := Sum(s.threads, PushesLeft), Sum(s.threads, PopsLeft);
      AllDone(After(s, run)) <==> Fits(pushes, pushes - pops, s.cap)
    ensures AllDone(After(s, run)) ==>
      var e := After(s, run);
      && e.popped <= Values(e.pushed)
      && |e.pushed| - |e.popped| == Sum(s.threads, PushesLeft) - Sum(s.threads, PopsLeft)
      && |e.threads| == |s.threads|
      && forall t :: 0 <= t < |s.threads| ==> ItemsBy(e.pushed, t) == s.threads[t].job.Items()
  {
    hide Sum, ItemsBy, Values;
    var e := After(s, run);
    InitInv(s);
    RunInv(s, run);
    RunKeepsSurplus(s, run);
    RunKeepsPushes(s, run);
    StuckMeansDone(e);
    if AllDone(e) {
      FifoRefinement(s, run);
      SumZero(e.threads, PushesLeft);
      SumZero(e.threads, PopsLeft);
      forall t | 0 <= t < |s.threads|
        ensures ItemsBy(e.pushed, t) == s.threads[t].job.Items()
      {
        DoneMeansStored(s, run, t);
      }
    }
  }

  // ---------------------------------------------------------------- the object

  /**
    The ring with the program counters of its callers. Each method is one atomic piece of push or pop run
    by thread t, and takes the object from one state of the transition system to the next.
  */
  class RingQueue<T(0)> {
    const slots: array<T>
    var read: nat
    var write: nat
    var rPos: nat
    var wPos: nat
    var pMutex: Option<nat>
    var vMutex: Option<nat>
    var threads: seq<Thread<T>>
    ghost var pushed: seq<(nat, T)>
    ghost var popped: seq<T>

    ghost function View(): State<T>
      reads this, slots
    {
      State(slots.Length, slots[..], read, write, rPos, wPos, pMutex, vMutex, threads, pushed, popped)
    }

    constructor (jobs: seq<Job<T>>, cap: nat := 5)
      ensures IsInit(View()) && View().cap == cap && fresh(slots)
      ensures |threads| == |jobs| && forall t :: 0 <= t < |jobs| ==> threads[t].job == jobs[t]
    {
      slots := new T[cap];
      read, write, rPos, wPos := 0, cap, 0, 0;
      pMutex, vMutex := None, None;
      threads := seq(|jobs|, t requires 0 <= t < |jobs| => Worker(jobs[t], Idle));
      pushed, popped := [], [];
    }

    method GoTo(t: nat, pc: Pc)
      requires t < |threads|
      modifies this`threads
      ensures threads == old(threads)[t := old(threads[t]).(pc := pc)]
    {
      threads := threads[t := threads[t].(pc := pc)];
    }

    /** P on the thread's own semaphore. */
    method SemWait(t: nat)
      requires WellFormed(View()) && Enabled(View(), Wait(t))
      modifies this
      ensures View() == Apply(old(View()), Wait(t))
    {
      if threads[t].job.Produce? {
        write := write - 1;
      } else {
        read := read - 1;
      }
      GoTo(t, Admitted);
    }

    method LockSide(t: nat)
      requires WellFormed(View()) && Enabled(View(), Lock(t))
      modifies this
      ensures View() == Apply(old(View()), Lock(t))
    {
      if threads[t].job.Produce? {
        pMutex := Some(t);
      } else {
        vMutex := Some(t);
      }
      GoTo(t, Accessing);
    }

    /** _q[_wPos++ % _cap] = data, or T& P = _q[_rPos++ % _cap]; a consumer gets the slot's element. */
    method AccessSlot(t: nat) returns (taken: Option<T>)
      requires WellFormed(View()) && Enabled(View(), Access(t))
      modifies this, slots
      ensures View() == Apply(old(View()), Access(t))
      ensures taken == if old(threads[t]).job.Consume? then Some(old(slots[rPos % slots.Length])) else None
    {
      var job := threads[t].job;
      var pos: nat;
      match job {
        case Produce(items) =>
          pos := wPos;
          slots[wPos % slots.Length] := items[0];
          wPos := wPos + 1;
          pushed := pushed + [(t, items[0])];
          taken := None;
        case Consume(_) =>
          pos := rPos;
          var element := slots[rPos % slots.Length];
          rPos := rPos + 1;
          popped := popped + [element];
          taken := Some(element);
      }
      threads := threads[t := Worker(job.Advance(), Accessed(pos))];
    }

    method UnlockSide(t: nat)
      requires WellFormed(View()) && Enabled(View(), Unlock(t))
      modifies this
      ensures View() == Apply(old(View()), Unlock(t))
    {
      if threads[t].job.Produce? {
        pMutex := None;
      } else {
        vMutex := None;
      }
      GoTo(t, Posting(threads[t].pc.pos));
    }

    /** V on the other side's semaphore. */
    method SemPost(t: nat)
      requires WellFormed(View()) && Enabled(View(), Post(t))
      modifies this
      ensures View() == Apply(old(View()), Post(t))
    {
      if threads[t].job.Produce? {
        read := read + 1;
      } else {
        write := write + 1;
      }
      GoTo(t, Idle);
    }
  }
}
