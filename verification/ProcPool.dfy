/**
  pipe_t/procpool: a parent that sets up one pipe and one forked worker after the other, deals out tasks in
  turn, closes its write ends and waits. Every process has its own descriptor table; fork copies the parent's.
  An action is one system call of one process.
*/
module ProcPool {
  import opened Sums
  import opened Numbers

  datatype End = Rd(pipe: nat) | Wr(pipe: nat)

  type Table = map<nat, End>

  /** What the parent does next. */
  datatype Stage =
    | MakePipe(i: nat)
    | DoFork(i: nat, r: nat, w: nat)
    | CloseRead(i: nat, r: nat, w: nat)
    | Send(i: nat)
    | CloseWrite(i: nat)
    | Reap(i: nat)
    | Finished

  /** Closing(j): about to close the write end of pipe j, an inherited one or, for j == id, its own. */
  datatype Pc = Closing(j: nat) | Reading | Gone

  /** `ends` are the write descriptors the worker knows: its copy of wfd, and pfd[1]. */
  datatype Worker = Worker(id: nat, pc: Pc, table: Table, ends: seq<nat>, r: nat)

  /** n workers, m tasks to deal out, f task functions, and room for `room` tasks in a pipe. */
  datatype Config = Config(n: nat, m: nat, f: nat, room: nat)

  datatype State = State(
    stage: Stage,
    table: Table,
    wfd: seq<nat>,
    workers: seq<Worker>,
    pipes: seq<seq<nat>>,   // written and not yet read
    ran: seq<seq<nat>>)     // history: the tasks each worker has executed

  datatype Action =
    | Pipe(r: nat, w: nat) | Fork | ParentCloseRead | ParentWrite | ParentCloseWrite | ParentWait
    | WorkerClose(c: nat) | WorkerRead(c: nat)

  predicate IsConfig(g: Config) {
    g.n > 0 && g.f > 0 && g.room > 0
  }

  // ---------------------------------------------------------------- the transition system

  function Init(g: Config): State
    requires IsConfig(g)
  {
    State(MakePipe(0), map[], [], [], seq(g.n, _ => []), seq(g.n, _ => []))
  }

  ghost predicate Holds(t: Table, e: End) {
    exists fd :: fd in t && t[fd] == e
  }

  /** Some process has the write end of pipe k open, so a read on the empty pipe waits instead of reporting its end. */
  ghost predicate HasWriter(s: State, k: nat) {
    Holds(s.table, Wr(k)) || exists c :: 0 <= c < |s.workers| && Holds(s.workers[c].table, Wr(k))
  }

  /** The stage that follows the last iteration of a loop is that of the next one. */
  function NextStage(g: Config, stage: Stage): Stage {
    match stage
    case MakePipe(i) => if i < g.n then stage else if g.m > 0 then Send(0) else CloseWrite(0)
    case Send(i) => if i < g.m then stage else CloseWrite(0)
    case CloseWrite(i) => if i < g.n then stage else Reap(0)
    case Reap(i) => if i < g.n then stage else Finished
    case _ => stage
  }

  ghost predicate Enabled(g: Config, s: State, a: Action) {
    match a
    case Pipe(r, w) => s.stage.MakePipe? && r != w && r !in s.table && w !in s.table
    case Fork => s.stage.DoFork?
    case ParentCloseRead => s.stage.CloseRead?
    case ParentWrite => s.stage.Send? && g.n > 0 && g.f > 0 && |s.pipes| == g.n && |s.pipes[s.stage.i % g.n]| < g.room
    case ParentCloseWrite => s.stage.CloseWrite? && s.stage.i < |s.wfd|
    case ParentWait => s.stage.Reap? && s.stage.i < |s.workers| && s.workers[s.stage.i].pc.Gone?
    case WorkerClose(c) => c < |s.workers| && s.workers[c].pc.Closing? && s.workers[c].pc.j < |s.workers[c].ends|
    case WorkerRead(c) =>
      c < |s.workers| && s.workers[c].pc.Reading? && c < |s.pipes| && c < |s.ran| &&
      (s.pipes[c] != [] || !HasWriter(s, c))
  }

  ghost function Apply(g: Config, s: State, a: Action): State
    requires Enabled(g, s, a)
  {
    match a
    case Pipe(r, w) =>
      var i := s.stage.i;
      s.(stage := DoFork(i, r, w), table := s.table[r := Rd(i)][w := Wr(i)])
    case Fork =>
      var DoFork(i, r, w) := s.stage;
      s.(stage := CloseRead(i, r, w), workers := s.workers + [Worker(i, Closing(0), s.table, s.wfd + [w], r)])
    case ParentCloseRead =>
      var CloseRead(i, r, w) := s.stage;
      s.(stage := NextStage(g, MakePipe(i + 1)), table := s.table - {r}, wfd := s.wfd + [w])
    case ParentWrite =>
      var i := s.stage.i;
      var k := i % g.n;
      s.(stage := NextStage(g, Send(i + 1)), pipes := s.pipes[k := s.pipes[k] + [i % g.f]])
    case ParentCloseWrite =>
      var i := s.stage.i;
      s.(stage := NextStage(g, CloseWrite(i + 1)), table := s.table - {s.wfd[i]})
    case ParentWait => s.(stage := NextStage(g, Reap(s.stage.i + 1)))
    case WorkerClose(c) =>
      var k := s.workers[c];
      var next := if k.pc.j + 1 < |k.ends| then Closing(k.pc.j + 1) else Reading;
      s.(workers := s.workers[c := k.(pc := next, table := k.table - {k.ends[k.pc.j]})])
    case WorkerRead(c) =>
      if s.pipes[c] == [] then s.(workers := s.workers[c := s.workers[c].(pc := Gone, table := map[])])
      else s.(pipes := s.pipes[c := s.pipes[c][1..]], ran := s.ran[c := s.ran[c] + [s.pipes[c][0]]])
  }

  ghost predicate IsRun(g: Config, s: State, run: seq<Action>)
    decreases |run|
  {
    run == [] || (Enabled(g, s, run[0]) && IsRun(g, Apply(g, s, run[0]), run[1..]))
  }

  ghost function After(g: Config, s: State, run: seq<Action>): State
    requires IsRun(g, s, run)
    decreases |run|
  {
    if run == [] then s else After(g, Apply(g, s, run[0]), run[1..])
  }

  // ---------------------------------------------------------------- who holds what

  /** The table holds the write ends lo <= k < hi under their numbers, possibly one read end, and nothing else. */
  predicate TableIs(t: Table, ends: seq<nat>, lo: nat, hi: nat, read: seq<(nat, End)>) {
    && hi <= |ends| && |read| <= 1
    && (forall k :: lo <= k < hi ==> ends[k] in t && t[ends[k]] == Wr(k))
    && (read != [] ==> read[0].0 in t && t[read[0].0] == read[0].1 && read[0].1.Rd?)
    && forall fd :: fd in t ==>
         (t[fd].Wr? && lo <= t[fd].pipe < hi && ends[t[fd].pipe] == fd) || (read != [] && read[0] == (fd, t[fd]))
  }

  /** The parent's table, stage by stage. */
  predicate ParentTable(g: Config, s: State) {
    match s.stage
    case MakePipe(i) => i < g.n && |s.wfd| == |s.workers| == i && TableIs(s.table, s.wfd, 0, i, [])
    case DoFork(i, r, w) =>
      i < g.n && |s.wfd| == |s.workers| == i && TableIs(s.table, s.wfd + [w], 0, i + 1, [(r, Rd(i))])
    case CloseRead(i, r, w) =>
      i < g.n && |s.wfd| + 1 == |s.workers| == i + 1 && TableIs(s.table, s.wfd + [w], 0, i + 1, [(r, Rd(i))])
    case Send(i) => i < g.m && |s.wfd| == |s.workers| == g.n && TableIs(s.table, s.wfd, 0, g.n, [])
    case CloseWrite(i) => i < g.n && |s.wfd| == |s.workers| == g.n && TableIs(s.table, s.wfd, i, g.n, [])
    case Reap(i) => i < g.n && |s.wfd| == |s.workers| == g.n && TableIs(s.table, s.wfd, g.n, g.n, [])
    case Finished => |s.wfd| == |s.workers| == g.n && TableIs(s.table, s.wfd, g.n, g.n, [])
  }

  /** A worker's table: the write ends it has not closed yet and its own read end. */
  predicate WorkerTable(k: Worker, c: nat) {
    k.id == c && |k.ends| == c + 1 &&
    match k.pc
    case Closing(j) => j <= c && TableIs(k.table, k.ends, j, c + 1, [(k.r, Rd(c))])
    case Reading => TableIs(k.table, k.ends, c + 1, c + 1, [(k.r, Rd(c))])
    case Gone => TableIs(k.table, k.ends, c + 1, c + 1, [])
  }

  /** The tasks that go to worker k among the first `rounds`: task number i is function i mod f, for worker i mod n. */
  function Assigned(g: Config, k: nat, rounds: nat): seq<nat>
    requires IsConfig(g)
  {
    if rounds == 0 then []
    else Assigned(g, k, rounds - 1) + (if (rounds - 1) % g.n == k then [(rounds - 1) % g.f] else [])
  }

  /** How many tasks the parent has written. */
  function Rounds(g: Config, stage: Stage): nat {
    match stage
    case MakePipe(_) | DoFork(_, _, _) | CloseRead(_, _, _) => 0
    case Send(i) => i
    case _ => g.m
  }

  /** The parent has closed its write end of pipe k. */
  predicate ParentDone(stage: Stage, k: nat) {
    match stage
    case CloseWrite(i) => k < i
    case Reap(_) | Finished => true
    case _ => false
  }

  predicate WorkerOk(g: Config, s: State, c: nat)
    requires IsConfig(g) && c < g.n && |s.pipes| == |s.ran| == g.n
  {
    && s.ran[c] + s.pipes[c] == Assigned(g, c, Rounds(g, s.stage))
    && |s.pipes[c]| <= g.room
    && (c < |s.workers| ==> WorkerTable(s.workers[c], c))
    && (c < |s.workers| && s.workers[c].pc.Gone? ==> s.pipes[c] == [] && ParentDone(s.stage, c))
  }

  /** Workers are waited for in order. */
  predicate Reaped(s: State, c: nat) {
    c < |s.workers| && (s.stage.Finished? || (s.stage.Reap? && c < s.stage.i)) ==> s.workers[c].pc.Gone?
  }

  ghost predicate Inv(g: Config, s: State) {
    && IsConfig(g) && |s.pipes| == |s.ran| == g.n && |s.workers| <= g.n
    && ParentTable(g, s)
    && (forall c :: 0 <= c < g.n ==> WorkerOk(g, s, c))
    && (forall c :: 0 <= c < |s.workers| ==> Reaped(s, c))
  }

  lemma {:induction false} NothingAssigned(g: Config, k: nat)
    requires IsConfig(g)
    ensures Assigned(g, k, 0) == []
  {
  }

  lemma InitInv(g: Config)
    requires IsConfig(g)
    ensures Inv(g, Init(g))
  {
    forall c | 0 <= c < g.n
      ensures WorkerOk(g, Init(g), c)
    {
      NothingAssigned(g, c);
    }
  }

  /** Closing the lowest write end that is still open leaves exactly the others. */
  lemma CloseLowest(t: Table, ends: seq<nat>, lo: nat, hi: nat, read: seq<(nat, End)>)
    requires TableIs(t, ends, lo, hi, read) && lo < hi
    ensures TableIs(t - {ends[lo]}, ends, lo + 1, hi, read)
  {
  }

  lemma CloseReadEnd(t: Table, ends: seq<nat>, lo: nat, hi: nat, r: nat, e: End)
    requires TableIs(t, ends, lo, hi, [(r, e)])
    ensures TableIs(t - {r}, ends, lo, hi, [])
  {
  }

  lemma OpenPipe(t: Table, ends: seq<nat>, i: nat, r: nat, w: nat)
    requires TableIs(t, ends, 0, i, []) && |ends| == i && r != w && r !in t && w !in t
    ensures TableIs(t[r := Rd(i)][w := Wr(i)], ends + [w], 0, i + 1, [(r, Rd(i))])
  {
  }

  lemma StepParentTable(g: Config, s: State, a: Action)
    requires Inv(g, s) && Enabled(g, s, a)
    ensures ParentTable(g, Apply(g, s, a))
  {
    hide TableIs, WorkerOk, Reaped, Holds, HasWriter;
    match a
    case Pipe(r, w) => OpenPipe(s.table, s.wfd, s.stage.i, r, w);
    case ParentCloseRead =>
      CloseReadEnd(s.table, s.wfd + [s.stage.w], 0, s.stage.i + 1, s.stage.r, Rd(s.stage.i));
    case ParentCloseWrite => CloseLowest(s.table, s.wfd, s.stage.i, g.n, []);
    case _ =>
  }

  lemma ParentHolds(g: Config, s: State, k: nat)
    requires Inv(g, s) && k < |s.workers| && !ParentDone(s.stage, k)
    ensures HasWriter(s, k)
  {
    match s.stage
    case DoFork(_, _, w) => assert (s.wfd + [w])[k] in s.table;
    case CloseRead(_, _, w) => assert (s.wfd + [w])[k] in s.table;
    case MakePipe(_) => assert s.wfd[k] in s.table;
    case Send(_) => assert s.wfd[k] in s.table;
    case CloseWrite(_) => assert s.wfd[k] in s.table;
    case _ =>
  }

  lemma StepWorkerTable(g: Config, s: State, a: Action, c: nat)
    requires Inv(g, s) && Enabled(g, s, a) && c < |Apply(g, s, a).workers|
    ensures WorkerTable(Apply(g, s, a).workers[c], c)
  {
    if c < |s.workers| {
      assert WorkerOk(g, s, c);
      if a == WorkerClose(c) {
        var k := s.workers[c];
        CloseLowest(k.table, k.ends, k.pc.j, c + 1, [(k.r, Rd(c))]);
      }
    }
  }

  lemma StepWorkerOk(g: Config, s: State, a: Action, c: nat)
    requires Inv(g, s) && Enabled(g, s, a) && c < g.n
    ensures WorkerOk(g, Apply(g, s, a), c)
  {
    hide TableIs, Holds, HasWriter, WorkerTable, Reaped;
    var s' := Apply(g, s, a);
    assert WorkerOk(g, s, c);
    if c < |s'.workers| {
      StepWorkerTable(g, s, a, c);
    }
    if a == WorkerRead(c) {
      if s.pipes[c] == [] {
        if !ParentDone(s.stage, c) {
          ParentHolds(g, s, c);
        }
      } else {
        assert s.ran[c] + [s.pipes[c][0]] + s.pipes[c][1..] == s.ran[c] + s.pipes[c];
      }
    }
    if a.ParentWrite? && s.stage.i % g.n == c {
      assert s.ran[c] + (s.pipes[c] + [s.stage.i % g.f]) == s.ran[c] + s.pipes[c] + [s.stage.i % g.f];
    }
  }

  lemma StepInv(g: Config, s: State, a: Action)
    requires Inv(g, s) && Enabled(g, s, a)
    ensures Inv(g, Apply(g, s, a))
  {
    var s' := Apply(g, s, a);
    StepParentTable(g, s, a);
    forall c | 0 <= c < g.n
      ensures WorkerOk(g, s', c)
    {
      StepWorkerOk(g, s, a, c);
    }
    forall c | 0 <= c < |s'.workers|
      ensures Reaped(s', c)
    {
      if c < |s.workers| {
        assert Reaped(s, c);
      }
    }
  }

  lemma {:induction false} RunInv(g: Config, s: State, run: seq<Action>)
    requires Inv(g, s) && IsRun(g, s, run)
    ensures Inv(g, After(g, s, run))
    decreases |run|
  {
    if run != [] {
      StepInv(g, s, run[0]);
      RunInv(g, Apply(g, s, run[0]), run[1..]);
    }
  }

  // ---------------------------------------------------------------- the ends of a pipe after set-up

  predicate SetUp(s: State) {
    s.stage.Send? || s.stage.CloseWrite? || s.stage.Reap? || s.stage.Finished?
  }

  /** After set-up the write end of pipe k is with the parent until it closes it, and with the workers forked
      at or after pipe k was made that have not come to it in their close loop; with nobody else. */
  lemma WriteEnds(g: Config, s: State, k: nat)
    requires Inv(g, s) && SetUp(s) && k < g.n
    ensures Holds(s.table, Wr(k)) <==> !ParentDone(s.stage, k)
    ensures forall c :: 0 <= c < g.n ==>
              (Holds(s.workers[c].table, Wr(k)) <==>
               k <= c && s.workers[c].pc.Closing? && s.workers[c].pc.j <= k)
  {
    if !ParentDone(s.stage, k) {
      assert s.wfd[k] in s.table;
    }
    forall c | 0 <= c < g.n
      ensures Holds(s.workers[c].table, Wr(k)) <==>
              k <= c && s.workers[c].pc.Closing? && s.workers[c].pc.j <= k
    {
      assert WorkerOk(g, s, c);
      var worker := s.workers[c];
      if k <= c && worker.pc.Closing? && worker.pc.j <= k {
        assert worker.ends[k] in worker.table;
      }
    }
  }

  /** After set-up the read end of pipe k is with worker k until it exits, and with nobody else. */
  lemma ReadEnds(g: Config, s: State, k: nat)
    requires Inv(g, s) && SetUp(s) && k < g.n
    ensures !Holds(s.table, Rd(k))
    ensures forall c :: 0 <= c < g.n ==>
              (Holds(s.workers[c].table, Rd(k)) <==> c == k && !s.workers[c].pc.Gone?)
  {
    forall c | 0 <= c < g.n
      ensures Holds(s.workers[c].table, Rd(k)) <==> c == k && !s.workers[c].pc.Gone?
    {
      assert WorkerOk(g, s, c);
      var worker := s.workers[c];
      if c == k && !worker.pc.Gone? {
        assert worker.r in worker.table;
      }
    }
  }

  /** A worker in its read loop has one descriptor, the read end of its own pipe. */
  lemma ReadingTable(g: Config, s: State, c: nat)
    requires Inv(g, s) && c < |s.workers| && s.workers[c].pc.Reading?
    ensures forall fd :: fd in s.workers[c].table <==> fd == s.workers[c].r
    ensures s.workers[c].table[s.workers[c].r] == Rd(c)
  {
    assert WorkerOk(g, s, c);
  }

  /** Every write of a task goes to a pipe whose reader is alive, so none of them fails. */
  lemma WritesHaveReaders(g: Config, s: State)
    requires Inv(g, s) && s.stage.Send?
    ensures Holds(s.workers[s.stage.i % g.n].table, Rd(s.stage.i % g.n))
    ensures Holds(s.table, Wr(s.stage.i % g.n))
  {
    var k := s.stage.i % g.n;
    assert WorkerOk(g, s, k);
    ReadEnds(g, s, k);
    WriteEnds(g, s, k);
  }

  // ---------------------------------------------------------------- no deadlock

  /** A number above every one in the list. */
  function Above(numbers: seq<nat>): (unused: nat)
    ensures forall i :: 0 <= i < |numbers| ==> numbers[i] < unused
  {
    if numbers == [] then 0
    else
      var unused := Above(numbers[1..]);
      assert forall i :: 1 <= i < |numbers| ==> numbers[i] == numbers[1..][i - 1];
      if numbers[0] < unused then unused else numbers[0] + 1
  }

  /** A worker that has not exited can close, can read, or is waiting for a writer of its pipe. */
  lemma WorkerMoves(g: Config, s: State, c: nat)
    requires Inv(g, s) && c < |s.workers| && !s.workers[c].pc.Gone?
    ensures if s.workers[c].pc.Closing? then Enabled(g, s, WorkerClose(c))
            else Enabled(g, s, WorkerRead(c)) || (s.pipes[c] == [] && HasWriter(s, c))
  {
    assert WorkerOk(g, s, c);
  }

  /** While the parent waits for worker i, some worker can move or the wait can return. */
  lemma ReapMoves(g: Config, s: State)
    requires Inv(g, s) && s.stage.Reap?
    ensures exists a :: Enabled(g, s, a)
  {
    var i := s.stage.i;
    if s.workers[i].pc.Gone? {
      assert Enabled(g, s, ParentWait);
    } else {
      WorkerMoves(g, s, i);
      if s.workers[i].pc.Reading? && !Enabled(g, s, WorkerRead(i)) {
        WriteEnds(g, s, i);
        var c :| 0 <= c < |s.workers| && Holds(s.workers[c].table, Wr(i));
        WorkerMoves(g, s, c);
      }
    }
  }

  /** The system is stuck only when the parent has come to its end. */
  lemma StuckMeansFinished(g: Config, s: State)
    requires Inv(g, s)
    ensures (forall a :: !Enabled(g, s, a)) <==> s.stage.Finished?
  {
    match s.stage
    case MakePipe(i) =>
      var unused := Above(s.wfd);
      assert Enabled(g, s, Pipe(unused, unused + 1));
    case DoFork(_, _, _) => assert Enabled(g, s, Fork);
    case CloseRead(_, _, _) => assert Enabled(g, s, ParentCloseRead);
    case Send(i) =>
      var k := i % g.n;
      assert WorkerOk(g, s, k);
      if |s.pipes[k]| < g.room {
        assert Enabled(g, s, ParentWrite);
      } else {
        WorkerMoves(g, s, k);
      }
    case CloseWrite(_) => assert Enabled(g, s, ParentCloseWrite);
    case Reap(_) => ReapMoves(g, s);
    case Finished =>
      forall a
        ensures !Enabled(g, s, a)
      {
        if a.WorkerClose? || a.WorkerRead? {
          assert a.c < |s.workers| ==> Reaped(s, a.c);
        }
      }
  }

  // ---------------------------------------------------------------- the length of every run

  /** The closes and the final read of the workers that are not forked yet. */
  function Unforked(from: nat, n: nat): nat
    decreases n - from
  {
    if from >= n then 0 else from + 2 + Unforked(from + 1, n)
  }

  /** The parent's remaining calls, with the read of every task still to be written. */
  function ParentLeft(g: Config, stage: Stage): int {
    match stage
    case MakePipe(i) => 3 * (g.n - i) + Unforked(i, g.n) + 2 * g.m + 2 * g.n
    case DoFork(i, _, _) => 3 * (g.n - i) - 1 + Unforked(i, g.n) + 2 * g.m + 2 * g.n
    case CloseRead(i, _, _) => 3 * (g.n - i) - 2 + Unforked(i + 1, g.n) + 2 * g.m + 2 * g.n
    case Send(i) => 2 * (g.m - i) + 2 * g.n
    case CloseWrite(i) => 2 * g.n - i
    case Reap(i) => g.n - i
    case Finished => 0
  }

  function WorkerLeft(k: Worker): nat {
    match k.pc
    case Closing(j) => if j <= |k.ends| then |k.ends| - j + 1 else 0
    case Reading => 1
    case Gone => 0
  }

  function Length(pipe: seq<nat>): nat {
    |pipe|
  }

  function CallsLeft(g: Config, s: State): int {
    ParentLeft(g, s.stage) + Sum(s.workers, WorkerLeft) + Sum(s.pipes, Length)
  }

  /** Every step uses up exactly one call. */
  lemma StepUsesOne(g: Config, s: State, a: Action)
    requires Inv(g, s) && Enabled(g, s, a)
    ensures CallsLeft(g, Apply(g, s, a)) == CallsLeft(g, s) - 1
  {
    hide TableIs, Holds, HasWriter, Assigned, Reaped, Sum;
    if a.WorkerClose? || a.WorkerRead? {
      WorkerUsesOne(g, s, a);
    } else {
      hide WorkerTable, WorkerOk, WorkerLeft;
      var s' := Apply(g, s, a);
      match a
      case Fork => ForkUsesOne(g, s);
      case ParentWrite => SumUpdate(s.pipes, Length, s.stage.i % g.n, s'.pipes[s.stage.i % g.n]);
      case _ =>
    }
  }

  lemma ForkUsesOne(g: Config, s: State)
    requires Inv(g, s) && s.stage.DoFork?
    ensures CallsLeft(g, Apply(g, s, Fork)) == CallsLeft(g, s) - 1
  {
    hide TableIs, HasWriter, WorkerOk, Reaped;
    SumAppend(s.workers, WorkerLeft, Apply(g, s, Fork).workers[|s.workers|]);
  }

  lemma WorkerUsesOne(g: Config, s: State, a: Action)
    requires Inv(g, s) && Enabled(g, s, a) && (a.WorkerClose? || a.WorkerRead?)
    ensures CallsLeft(g, Apply(g, s, a)) == CallsLeft(g, s) - 1
  {
    hide TableIs, HasWriter, ParentLeft, ParentTable, Assigned, Reaped;
    var s', c := Apply(g, s, a), a.c;
    assert WorkerOk(g, s, c);
    if a.WorkerRead? && s.pipes[c] != [] {
      SumUpdate(s.pipes, Length, c, s'.pipes[c]);
    } else {
      SumUpdate(s.workers, WorkerLeft, c, s'.workers[c]);
    }
  }

  lemma {:induction false} RunUsesCalls(g: Config, s: State, run: seq<Action>)
    requires Inv(g, s) && IsRun(g, s, run)
    ensures CallsLeft(g, After(g, s, run)) == CallsLeft(g, s) - |run|
    decreases |run|
  {
    if run != [] {
      StepUsesOne(g, s, run[0]);
      StepInv(g, s, run[0]);
      RunUsesCalls(g, Apply(g, s, run[0]), run[1..]);
    }
  }

  lemma {:induction false} UnforkedClosed(from: nat, n: nat)
    requires from <= n
    ensures 2 * Unforked(from, n) == (n - from) * (n + from + 3)
    decreases n - from
  {
    if from < n {
      UnforkedClosed(from + 1, n);
    }
  }

  lemma NothingLeftAtStart(g: Config)
    requires IsConfig(g)
    ensures 2 * CallsLeft(g, Init(g)) == g.n * (g.n + 13) + 4 * g.m
  {
    SumZero(Init(g).pipes, Length);
    UnforkedClosed(0, g.n);
  }

  /**
    Every interleaving runs to the end: a run that cannot go on has made exactly n(n+13)/2 + 2m calls, all
    workers have reached end-of-file and been waited for, no descriptor is left open, and every worker has
    executed its tasks, each once and in order.
  */
  lemma MaximalRunCompletes(g: Config, run: seq<Action>)
    requires IsConfig(g) && IsRun(g, Init(g), run)
    ensures 2 * |run| <= g.n * (g.n + 13) + 4 * g.m
    ensures var s := After(g, Init(g), run);
            (forall a :: !Enabled(g, s, a)) <==> 2 * |run| == g.n * (g.n + 13) + 4 * g.m
    ensures var s := After(g, Init(g), run);
            (forall a :: !Enabled(g, s, a)) ==>
              && s.stage.Finished? && |s.workers| == |s.pipes| == |s.ran| == g.n
              && (forall fd :: fd !in s.table)
              && forall k :: 0 <= k < g.n ==>
                   && s.workers[k].pc.Gone? && (forall fd :: fd !in s.workers[k].table)
                   && s.pipes[k] == [] && s.ran[k] == Assigned(g, k, g.m)
  {
    var s := After(g, Init(g), run);
    InitInv(g);
    RunInv(g, Init(g), run);
    RunUsesCalls(g, Init(g), run);
    NothingLeftAtStart(g);
    StuckMeansFinished(g, s);
    NoCallsLeft(g, s);
    if s.stage.Finished? {
      forall k | 0 <= k < g.n
        ensures s.workers[k].pc.Gone? && (forall fd :: fd !in s.workers[k].table)
        ensures s.pipes[k] == [] && s.ran[k] == Assigned(g, k, g.m)
      {
        assert Reaped(s, k) && WorkerOk(g, s, k);
        assert s.ran[k] + [] == s.ran[k];
      }
    }
  }

  lemma NoCallsLeft(g: Config, s: State)
    requires Inv(g, s)
    ensures CallsLeft(g, s) >= 0
    ensures CallsLeft(g, s) == 0 <==> s.stage.Finished?
  {
    if s.stage.Finished? {
      forall k | 0 <= k < g.n
        ensures WorkerLeft(s.workers[k]) == 0 && Length(s.pipes[k]) == 0
      {
        assert Reaped(s, k) && WorkerOk(g, s, k);
      }
      SumZero(s.workers, WorkerLeft);
      SumZero(s.pipes, Length);
    }
  }

  // ---------------------------------------------------------------- the deal

  /** The number of tasks dealt to worker k in `rounds` rounds. */
  function Load(n: nat, k: nat, rounds: nat): nat
    requires n > 0
  {
    rounds / n + (if k < rounds % n then 1 else 0)
  }

  lemma NextRound(n: nat, rounds: nat)
    requires n > 0
    ensures if rounds % n + 1 < n then (rounds + 1) / n == rounds / n && (rounds + 1) % n == rounds % n + 1
            else (rounds + 1) / n == rounds / n + 1 && (rounds + 1) % n == 0
  {
    var q, r := rounds / n, rounds % n;
    assert rounds == n * q + r;
    if r + 1 < n {
      Quotient(n, q, r + 1, rounds + 1);
    } else {
      assert n * (q + 1) == n * q + n;
      Quotient(n, q + 1, 0, rounds + 1);
    }
  }

  /** Worker k gets the tasks number k, n + k, 2n + k, ...: the q-th one it executes is number qn + k. */
  lemma {:induction false} Deal(g: Config, k: nat, rounds: nat)
    requires IsConfig(g) && k < g.n
    ensures |Assigned(g, k, rounds)| == Load(g.n, k, rounds)
    ensures forall q :: 0 <= q < |Assigned(g, k, rounds)| ==>
              q * g.n + k < rounds && Assigned(g, k, rounds)[q] == (q * g.n + k) % g.f
  {
    if rounds > 0 {
      Deal(g, k, rounds - 1);
      NextRound(g.n, rounds - 1);
      if (rounds - 1) % g.n == k {
        Recompose(g.n, rounds - 1);
      }
    }
  }

  /** Task number i is the (i / n)-th that worker i mod n executes. */
  lemma TaskIsDealt(g: Config, i: nat)
    requires IsConfig(g) && i < g.m
    ensures i / g.n < |Assigned(g, i % g.n, g.m)|
    ensures Assigned(g, i % g.n, g.m)[i / g.n] == i % g.f
  {
    var q, k := i / g.n, i % g.n;
    QuotientMonotone(g.n, i, g.m);
    Recompose(g.n, i);
    DealAt(g, k, g.m, q, i);
  }

  lemma DealAt(g: Config, k: nat, rounds: nat, q: nat, i: nat)
    requires IsConfig(g) && k < g.n && q < Load(g.n, k, rounds) && q * g.n + k == i
    ensures q < |Assigned(g, k, rounds)| && Assigned(g, k, rounds)[q] == i % g.f
  {
    hide Load, Assigned;
    Deal(g, k, rounds);
  }

  lemma QuotientMonotone(n: nat, i: nat, m: nat)
    requires n > 0 && i < m
    ensures i / n < m / n || (i / n == m / n && i % n < m % n)
  {
    var d := i / n - m / n;
    assert i == n * (i / n) + i % n && m == n * (m / n) + m % n;
    assert n * d == n * (i / n) - n * (m / n);
    Multiple(n, d);
  }

  /** No worker is dealt more than one task more than another. */
  lemma LoadsDiffer(g: Config, k: nat, k': nat)
    requires IsConfig(g) && k < g.n && k' < g.n
    ensures |Assigned(g, k, g.m)| <= |Assigned(g, k', g.m)| + 1
    ensures k <= k' ==> |Assigned(g, k, g.m)| >= |Assigned(g, k', g.m)|
  {
    Deal(g, k, g.m);
    Deal(g, k', g.m);
  }

  /** With the source's five workers and four functions, no round of its fifteen repeats a pair of an earlier one. */
  lemma FifteenRounds()
    ensures forall i: nat, j: nat :: i < j < 15 ==> !SamePair(5, 4, i, j)
  {
    forall d: nat | Divides(d, 5) && Divides(d, 4)
      ensures d <= 1
    {
      var q: int :| 5 == d * q;
      var p: int :| 4 == d * p;
      assert d * (q - p) == 1;
      Multiple(d, q - p);
    }
    PairsNeverRepeat(5, 4);
  }

  // ---------------------------------------------------------------- the program

  /** The processes of the program. Each method is one system call of one of them. */
  class Pool {
    const config: Config
    var stage: Stage
    var table: Table
    var wfd: seq<nat>
    var workers: seq<Worker>
    var pipes: seq<seq<nat>>
    ghost var ran: seq<seq<nat>>

    ghost function View(): State
      reads this
    {
      State(stage, table, wfd, workers, pipes, ran)
    }

    constructor (config: Config)
      requires IsConfig(config)
      ensures this.config == config && View() == Init(config)
    {
      this.config := config;
      stage, table, wfd, workers := MakePipe(0), map[], [], [];
      pipes, ran := seq(config.n, _ => []), seq(config.n, _ => []);
    }

    /** pipe(pfd); the system picks two unused numbers. */
    method MakeNextPipe(r: nat, w: nat)
      requires Enabled(config, View(), Pipe(r, w))
      modifies this
      ensures View() == Apply(config, old(View()), Pipe(r, w))
    {
      table := table[r := Rd(stage.i)][w := Wr(stage.i)];
      stage := DoFork(stage.i, r, w);
    }

    /** fork(): the child starts with a copy of the parent's descriptors and of wfd. */
    method ForkWorker()
      requires Enabled(config, View(), Fork)
      modifies this
      ensures View() == Apply(config, old(View()), Fork)
    {
      workers := workers + [Worker(stage.i, Closing(0), table, wfd + [stage.w], stage.r)];
      stage := CloseRead(stage.i, stage.r, stage.w);
    }

    /** close(pfd[0]) in the parent; wfd.push_back(pfd[1]). */
    method CloseReadEndInParent()
      requires Enabled(config, View(), ParentCloseRead)
      modifies this
      ensures View() == Apply(config, old(View()), ParentCloseRead)
    {
      table := table - {stage.r};
      wfd := wfd + [stage.w];
      stage := NextStage(config, MakePipe(stage.i + 1));
    }

    /** One round of AllocTask. */
    method WriteTask()
      requires Enabled(config, View(), ParentWrite)
      modifies this
      ensures View() == Apply(config, old(View()), ParentWrite)
    {
      var p, t := stage.i % config.n, stage.i % config.f;
      pipes := pipes[p := pipes[p] + [t]];
      stage := NextStage(config, Send(stage.i + 1));
    }

    /** One round of the first loop of RecycleResource. */
    method CloseWriteEndInParent()
      requires Enabled(config, View(), ParentCloseWrite)
      modifies this
      ensures View() == Apply(config, old(View()), ParentCloseWrite)
    {
      table := table - {wfd[stage.i]};
      stage := NextStage(config, CloseWrite(stage.i + 1));
    }

    /** The return of one waitpid. */
    method WaitForWorker()
      requires Enabled(config, View(), ParentWait)
      modifies this
      ensures View() == Apply(config, old(View()), ParentWait)
    {
      stage := NextStage(config, Reap(stage.i + 1));
    }

    /** One close of worker c before its read loop. */
    method CloseInWorker(c: nat)
      requires Enabled(config, View(), WorkerClose(c))
      modifies this
      ensures View() == Apply(config, old(View()), WorkerClose(c))
    {
      var k := workers[c];
      var pc := if k.pc.j + 1 < |k.ends| then Closing(k.pc.j + 1) else Reading;
      workers := workers[c := k.(pc := pc, table := k.table - {k.ends[k.pc.j]})];
    }

    /** The return of worker c's read: a task, which it executes, or the end of the pipe, at which it exits. */
    method ReadInWorker(c: nat) returns (task: seq<nat>)
      requires Enabled(config, View(), WorkerRead(c))
      modifies this
      ensures View() == Apply(config, old(View()), WorkerRead(c))
      ensures task == if old(pipes[c]) == [] then [] else [old(pipes[c][0])]
    {
      if pipes[c] == [] {
        task := [];
        workers := workers[c := workers[c].(pc := Gone, table := map[])];
      } else {
        task := [pipes[c][0]];
        pipes, ran := pipes[c := pipes[c][1..]], ran[c := ran[c] + task];
      }
    }
  }
}
