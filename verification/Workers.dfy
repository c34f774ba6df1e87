/** What the threads that share a queue still have to do, and the history of what they have stored. */
module Workers {

  datatype Option<T> = None | Some(value: T)

  /** A producer has items to push, in this order; a consumer has a number of pops to make. */
  datatype Job<T> = Produce(items: seq<T>) | Consume(count: nat) {
    function Left(): nat {
      if Produce? then |items| else count
    }

    function Pushes(): nat {
      if Produce? then |items| else 0
    }

    function Pops(): nat {
      if Produce? then 0 else count
    }

    /** The job once the current operation has moved its element. */
    function Advance(): Job<T>
      requires Left() > 0
    {
      if Produce? then Produce(items[1..]) else Consume(count - 1)
    }

    function Items(): seq<T> {
      if Produce? then items else []
    }
  }

  /** A thread that uses a queue: its job, and where it is inside push or pop. */
  datatype Worker<T, P> = Worker(job: Job<T>, pc: P)

  function PushesLeft<T, P>(th: Worker<T, P>): nat { th.job.Pushes() }

  function PopsLeft<T, P>(th: Worker<T, P>): nat { th.job.Pops() }

  /** The work fits a queue: enough pushes for the pops, at most `cap` left over, and room if anything is pushed. */
  predicate Fits(pushes: nat, surplus: int, cap: nat) {
    0 <= surplus <= cap && (cap == 0 ==> pushes == 0)
  }

  /** The elements of a history, without the threads that stored them. */
  function Values<T>(log: seq<(nat, T)>): seq<T> {
    seq(|log|, i requires 0 <= i < |log| => log[i].1)
  }

  /** The elements that thread t stored, in the order it stored them. */
  function ItemsBy<T>(log: seq<(nat, T)>, t: nat): seq<T> {
    if log == [] then []
    else
      var last := log[|log| - 1];
      ItemsBy(log[..|log| - 1], t) + (if last.0 == t then [last.1] else [])
  }

  lemma ValuesAppend<T>(log: seq<(nat, T)>, who: nat, x: T)
    ensures Values(log + [(who, x)]) == Values(log) + [x]
  {
  }

  lemma ItemsByAppend<T>(log: seq<(nat, T)>, who: nat, x: T, t: nat)
    ensures ItemsBy(log + [(who, x)], t) == ItemsBy(log, t) + (if who == t then [x] else [])
  {
    var longer := log + [(who, x)];
    assert longer[..|longer| - 1] == log;
  }

  /** What thread t has stored so far followed by what it has still to store. */
  function Stream<T, P>(log: seq<(nat, T)>, threads: seq<Worker<T, P>>, t: nat): seq<T>
    requires t < |threads|
  {
    ItemsBy(log, t) + threads[t].job.Items()
  }

  /** Storing the first item of its job moves it from one part of the stream to the other. */
  lemma StreamKept<T, P>(log: seq<(nat, T)>, threads: seq<Worker<T, P>>, who: nat, pc: P, t: nat)
    requires who < |threads| && t < |threads| && threads[who].job.Produce? && threads[who].job.Left() > 0
    ensures var job := threads[who].job;
      Stream(log + [(who, job.items[0])], threads[who := Worker(job.Advance(), pc)], t) == Stream(log, threads, t)
  {
    hide ItemsBy;
    var items := threads[who].job.items;
    ItemsByAppend(log, who, items[0], t);
    if who == t {
      Regroup(ItemsBy(log, t), items);
    }
  }

  lemma Regroup<T>(before: seq<T>, items: seq<T>)
    requires items != []
    ensures (before + [items[0]]) + items[1..] == before + items
  {
  }
}
