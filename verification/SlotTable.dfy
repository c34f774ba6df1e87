/**
  What the select and the poll server have in common: a fixed table of descriptors with the listener in slot 0,
  which one pass scans while it accepts and closes.
*/
module SlotTable {

  const CAP: nat := 1024    // fdscap
  const FREE: int := -1     // defaultfd

  /** What read returns: -1, or the bytes it read; none at all is the end of the connection. */
  datatype Answer = Failed | Bytes(data: string)

  predicate Closes(answer: Answer) {
    answer.Failed? || answer.data == ""
  }

  /** A call of recver on slot `pos`, reading from connection `who`. */
  datatype Visit = Visit(pos: nat, who: nat)

  /**
    The table agrees with the kernel: slot 0 is the listener, and the other occupied slots are exactly the open
    client descriptors, each in one slot. `conns` says which connection an open descriptor number stands for.
  */
  ghost predicate Agree(fds: seq<int>, conns: map<int, nat>, sock: int)
    ensures Agree(fds, conns, sock) ==> |fds| == CAP && fds[0] == sock && sock != FREE
    ensures Agree(fds, conns, sock) ==>
              forall i :: 0 < i < CAP && fds[i] != FREE ==> fds[i] in conns && fds[i] != sock
  {
    && |fds| == CAP && sock >= 0 && fds[0] == sock && (forall i :: 0 <= i < CAP ==> fds[i] >= FREE)
    && (forall i, j :: 0 <= i < j < CAP && fds[i] != FREE ==> fds[i] != fds[j])
    && forall fd :: fd in conns <==> fd in fds && fd != FREE && fd != sock
  }

  lemma NoneBelowFree(fds: seq<int>, conns: map<int, nat>, sock: int)
    requires Agree(fds, conns, sock)
    ensures forall i :: 0 <= i < CAP ==> fds[i] >= FREE
  {
  }

  /** Connections are numbered as they come. */
  ghost predicate Numbered(conns: map<int, nat>, serial: nat) {
    forall fd :: fd in conns ==> conns[fd] < serial
  }

  /** The numbers that accept can return: those of no open socket. */
  predicate Unused(fd: int, conns: map<int, nat>, sock: int) {
    fd >= 0 && fd != sock && fd !in conns
  }

  /** The first free slot, or the length of the table. */
  function FirstFree(fds: seq<int>): (k: nat)
    ensures k <= |fds| && (k < |fds| ==> fds[k] == FREE)
    ensures forall j :: 0 <= j < k ==> fds[j] != FREE
  {
    if fds == [] || fds[0] == FREE then 0
    else
      var k := FirstFree(fds[1..]);
      assert forall j :: 1 <= j <= k ==> fds[j] == fds[1..][j - 1] || j == |fds|;
      k + 1
  }

  lemma FirstFreeIs(fds: seq<int>, k: nat)
    requires k <= |fds| && (forall j :: 0 <= j < k ==> fds[j] != FREE) && (k < |fds| ==> fds[k] == FREE)
    ensures FirstFree(fds) == k
  {
  }

  lemma AgreeAfterAccept(fds: seq<int>, conns: map<int, nat>, sock: int, fd: int, who: nat)
    requires Agree(fds, conns, sock) && Unused(fd, conns, sock) && FirstFree(fds) < CAP
    ensures Agree(fds[FirstFree(fds) := fd], conns[fd := who], sock)
  {
    var k := FirstFree(fds);
    var fds' := fds[k := fd];
    forall f
      ensures f in conns[fd := who] <==> f in fds' && f != FREE && f != sock
    {
      if f in conns {
        var i :| 0 <= i < CAP && fds[i] == f;
        assert fds'[i] == f;
      }
      if f == fd {
        assert fds'[k] == f;
      }
      if f in fds' {
        var i :| 0 <= i < CAP && fds'[i] == f;
        assert i == k || fds[i] == f;
      }
    }
  }

  lemma AgreeAfterClose(fds: seq<int>, conns: map<int, nat>, sock: int, pos: nat)
    requires Agree(fds, conns, sock) && 0 < pos < CAP && fds[pos] != FREE
    ensures Agree(fds[pos := FREE], conns - {fds[pos]}, sock)
  {
    var fds' := fds[pos := FREE];
    forall f
      ensures f in conns - {fds[pos]} <==> f in fds' && f != FREE && f != sock
    {
      if f in conns && f != fds[pos] {
        var i :| 0 <= i < CAP && fds[i] == f;
        assert fds'[i] == f;
      }
      if f in fds' && f != FREE {
        var i :| 0 <= i < CAP && fds'[i] == f;
        assert fds[i] == f && i != pos;
      }
    }
  }

  // ---------------------------------------------------------------- one pass, stated on the table it began with

  /**
    The table and the connections a pass begins with, which slots were reported (`due`), what a read of each slot
    would return, and the descriptors the pass accepts: none or one, which will be connection number `serial`.
  */
  datatype Pass = Pass(
    sock: int, fds: seq<int>, conns: map<int, nat>, due: seq<bool>, answers: seq<Answer>, arrivals: seq<int>,
    serial: nat)

  ghost predicate Proper(p: Pass)
    ensures Proper(p) ==> |p.fds| == |p.due| == |p.answers| == CAP && |p.arrivals| <= 1
  {
    && Agree(p.fds, p.conns, p.sock) && Numbered(p.conns, p.serial) && |p.due| == |p.answers| == CAP
    && (forall i :: 0 <= i < CAP && p.due[i] ==> p.fds[i] != FREE)
    && |p.arrivals| <= 1 && (p.arrivals != [] ==> p.due[0] && Unused(p.arrivals[0], p.conns, p.sock))
  }

  /** The calls of recver due in slots 1 to n - 1, in slot order. */
  function Visits(p: Pass, n: nat): seq<Visit>
    requires n <= |p.fds| == |p.due|
  {
    if n <= 1 then []
    else
      var i := n - 1;
      Visits(p, i) + (if p.due[i] && p.fds[i] in p.conns then [Visit(i, p.conns[p.fds[i]])] else [])
  }

  /** The visits go up the table, and they are those of the reported clients, each once, under its connection. */
  lemma {:induction false} VisitsAreTheReported(p: Pass, n: nat)
    requires n <= |p.fds| == |p.due|
    ensures forall v :: v in Visits(p, n) <==>
              && 0 < v.pos < n && p.due[v.pos]
              && p.fds[v.pos] in p.conns && v.who == p.conns[p.fds[v.pos]]
    ensures forall i, j :: 0 <= i < j < |Visits(p, n)| ==> Visits(p, n)[i].pos < Visits(p, n)[j].pos
  {
    if n > 1 {
      var some := Visits(p, n - 1);
      VisitsAreTheReported(p, n - 1);
      forall i | 0 <= i < |some|
        ensures some[i].pos < n - 1
      {
        assert some[i] in some;
      }
    }
  }

  lemma Regroup(past: seq<Visit>, seen: seq<Visit>, more: seq<Visit>)
    ensures past + (seen + more) == (past + seen) + more
  {
  }

  /** The client accepted in a pass is not read in it. */
  lemma NeverTheArrival(p: Pass, v: Visit)
    requires Proper(p) && v in Visits(p, CAP)
    ensures v.who != p.serial
  {
    VisitsAreTheReported(p, CAP);
  }

  /** What a pass leaves in slot i: closed clients are gone, and an arrival is in the slot that was free first. */
  function SlotAfter(p: Pass, i: nat): int
    requires i < |p.fds| == |p.due| == |p.answers|
  {
    if i > 0 && p.due[i] && Closes(p.answers[i]) then FREE else SlotBefore(p, i)
  }

  /** What slot i holds when the pass comes to it. */
  function SlotBefore(p: Pass, i: nat): int
    requires i < |p.fds|
  {
    if p.arrivals != [] && i == FirstFree(p.fds) then p.arrivals[0] else p.fds[i]
  }

  /** A descriptor open after the pass stands for the connection it stood for before, or for the arrival. */
  ghost predicate SameConnections(p: Pass, after: map<int, nat>) {
    forall fd :: fd in after ==>
      if fd in p.conns then after[fd] == p.conns[fd] else fd in p.arrivals && after[fd] == p.serial
  }

  /** The table, the connections and the visits when the pass is about to look at slot i > 0. */
  ghost predicate Scanned(p: Pass, i: nat, fds: seq<int>, conns: map<int, nat>, visits: seq<Visit>)
    requires Proper(p)
    ensures Scanned(p, i, fds, conns, visits) ==> |fds| == CAP && i <= CAP && visits == Visits(p, i)
  {
    && 0 < i <= CAP && Agree(fds, conns, p.sock)
    && (forall j :: 0 <= j < CAP ==> fds[j] == if j < i then SlotAfter(p, j) else SlotBefore(p, j))
    && SameConnections(p, conns) && visits == Visits(p, i)
  }

  lemma ScanListener(p: Pass)
    requires Proper(p)
    ensures var k := FirstFree(p.fds);
            if p.arrivals == [] || k == CAP then Scanned(p, 1, p.fds, p.conns, [])
            else Scanned(p, 1, p.fds[k := p.arrivals[0]], p.conns[p.arrivals[0] := p.serial], [])
  {
    var k := FirstFree(p.fds);
    if p.arrivals != [] && k < CAP {
      AgreeAfterAccept(p.fds, p.conns, p.sock, p.arrivals[0], p.serial);
    }
  }

  /** A slot that was not reported is passed over; what it holds now was not reported either. */
  lemma ScanPast(p: Pass, i: nat, fds: seq<int>, conns: map<int, nat>, visits: seq<Visit>)
    requires Proper(p) && Scanned(p, i, fds, conns, visits) && i < CAP && !p.due[i]
    ensures Scanned(p, i + 1, fds, conns, visits)
  {
  }

  /** A slot that was reported still holds the descriptor and the connection it was reported for. */
  lemma ScanReported(p: Pass, i: nat, fds: seq<int>, conns: map<int, nat>, visits: seq<Visit>)
    requires Proper(p) && Scanned(p, i, fds, conns, visits) && i < CAP && p.due[i]
    ensures fds[i] == p.fds[i] && fds[i] != FREE && fds[i] in conns
    ensures var visits' := visits + [Visit(i, conns[fds[i]])];
            if Closes(p.answers[i]) then Scanned(p, i + 1, fds[i := FREE], conns - {fds[i]}, visits')
            else Scanned(p, i + 1, fds, conns, visits')
  {
    AgreeAfterClose(fds, conns, p.sock, i);
  }

  /** The table and the connections that pass p leaves. */
  ghost predicate Leaves(p: Pass, fds: seq<int>, conns: map<int, nat>)
    requires Proper(p)
  {
    |fds| == CAP && (forall k :: 0 <= k < CAP ==> fds[k] == SlotAfter(p, k)) && SameConnections(p, conns)
  }

  /** The client of slot i has gone: its slot is free and its number is nobody's. */
  ghost predicate IsGone(p: Pass, i: nat, fds: seq<int>, conns: map<int, nat>)
    requires i < |p.fds| == |fds|
  {
    fds[i] == FREE && p.fds[i] !in conns && p.fds[i] !in fds
  }

  /** The client of slot i is where it was, and its number stands for the same connection. */
  ghost predicate IsKept(p: Pass, i: nat, fds: seq<int>, conns: map<int, nat>)
    requires i < |p.fds| == |fds|
  {
    fds[i] == p.fds[i] && fds[i] in conns && fds[i] in p.conns && conns[fds[i]] == p.conns[fds[i]]
  }

  /** A reported client goes when its read fails or is empty, and stays when it brings anything; the others stay. */
  lemma PassCloses(p: Pass, fds: seq<int>, conns: map<int, nat>, i: nat)
    requires Proper(p) && Leaves(p, fds, conns) && Agree(fds, conns, p.sock)
    requires 0 < i < CAP && p.fds[i] != FREE
    ensures p.due[i] && p.answers[i] == Failed ==> IsGone(p, i, fds, conns)
    ensures p.due[i] && p.answers[i] == Bytes("") ==> IsGone(p, i, fds, conns)
    ensures p.due[i] && p.answers[i].Bytes? && |p.answers[i].data| > 0 ==> IsKept(p, i, fds, conns)
    ensures !p.due[i] ==> IsKept(p, i, fds, conns)
  {
    if p.due[i] && Closes(p.answers[i]) {
      forall j | 0 <= j < CAP
        ensures fds[j] != p.fds[i]
      {
        assert fds[j] == SlotAfter(p, j);
      }
    }
  }

  /** An arrival is in the slot that was free first, or nowhere if none was; all other free slots are still free. */
  lemma PassAdmits(p: Pass, fds: seq<int>, conns: map<int, nat>, i: nat)
    requires Proper(p) && Leaves(p, fds, conns) && Agree(fds, conns, p.sock) && i < CAP && p.fds[i] == FREE
    ensures var first := forall j :: 0 <= j < i ==> p.fds[j] != FREE;
      if first && p.arrivals != [] then fds[i] == p.arrivals[0] && fds[i] in conns && conns[fds[i]] == p.serial
      else fds[i] == FREE
  {
    if forall j :: 0 <= j < i ==> p.fds[j] != FREE {
      FirstFreeIs(p.fds, i);
    }
    assert p.fds[0] != FREE;
  }

  // ---------------------------------------------------------------- many passes

  /** Passes in the order they were made: each begins with what the one before it left, and serial numbers only grow. */
  ghost predicate Chained(passes: seq<Pass>)
    ensures Chained(passes) ==> forall i :: 0 <= i < |passes| ==> Proper(passes[i])
  {
    && (forall i :: 0 <= i < |passes| ==> Proper(passes[i]))
    && (forall i :: 0 < i < |passes| ==> Leaves(passes[i - 1], passes[i].fds, passes[i].conns))
    && forall i, j :: 0 <= i <= j < |passes| ==> passes[i].serial <= passes[j].serial
  }

  /** The passes are chained up to a server with this table, these connections and this serial number. */
  ghost predicate ChainedTo(passes: seq<Pass>, fds: seq<int>, conns: map<int, nat>, serial: nat)
    ensures ChainedTo(passes, fds, conns, serial) ==> forall i :: 0 <= i < |passes| ==> Proper(passes[i])
  {
    && Chained(passes)
    && (passes != [] ==>
          var last := passes[|passes| - 1]; Leaves(last, fds, conns) && last.serial <= serial)
  }

  /** The table and the connections after pass k of a run. */
  ghost function Next(passes: seq<Pass>, k: nat, fds: seq<int>, conns: map<int, nat>): (seq<int>, map<int, nat>)
    requires k < |passes|
  {
    if k + 1 < |passes| then (passes[k + 1].fds, passes[k + 1].conns) else (fds, conns)
  }

  /** In every pass of a run the reported clients whose read fails or is empty go, and no other client does. */
  lemma RunCloses(passes: seq<Pass>, fds: seq<int>, conns: map<int, nat>, serial: nat, k: nat, i: nat)
    requires ChainedTo(passes, fds, conns, serial) && |fds| == CAP && Agree(fds, conns, fds[0])
    requires k < |passes| && 0 < i < CAP && passes[k].fds[i] != FREE
    ensures var p, after := passes[k], Next(passes, k, fds, conns);
      && |after.0| == CAP
      && if p.due[i] && (p.answers[i] == Failed || p.answers[i] == Bytes("")) then IsGone(p, i, after.0, after.1)
         else IsKept(p, i, after.0, after.1)
  {
    var p, after := passes[k], Next(passes, k, fds, conns);
    assert Proper(p) && Leaves(p, after.0, after.1);
    assert after.0[0] == SlotAfter(p, 0) == p.sock;
    if k + 1 < |passes| {
      assert Proper(passes[k + 1]);
    }
    PassCloses(p, after.0, after.1, i);
  }

  ghost function AllVisits(passes: seq<Pass>): seq<Visit>
    requires forall i :: 0 <= i < |passes| ==> Proper(passes[i])
  {
    if passes == [] then []
    else
      var last := passes[|passes| - 1];
      assert Proper(last);
      AllVisits(passes[..|passes| - 1]) + Visits(last, CAP)
  }

  lemma ChainGrows(passes: seq<Pass>, p: Pass, fds: seq<int>, conns: map<int, nat>, serial: nat)
    requires ChainedTo(passes, p.fds, p.conns, p.serial) && Proper(p) && Leaves(p, fds, conns) && p.serial <= serial
    ensures ChainedTo(passes + [p], fds, conns, serial)
    ensures AllVisits(passes + [p]) == AllVisits(passes) + Visits(p, CAP)
  {
    hide Proper, Leaves;
    assert (passes + [p])[..|passes|] == passes;
  }

  /** One pass for every busy turn of the main loop, in which the kernel reported something. */
  ghost predicate PassesOf<X>(passes: seq<Pass>, turns: seq<X>, busy: X -> bool, fits: (Pass, X) -> bool)
    decreases |turns|
  {
    if turns == [] then passes == []
    else
      var t, i := |turns| - 1, |passes| - 1;
      if busy(turns[t]) then
        passes != [] && fits(passes[i], turns[t]) && PassesOf(passes[..i], turns[..t], busy, fits)
      else PassesOf(passes, turns[..t], busy, fits)
  }

  lemma NoTurns<X>(turns: seq<X>, busy: X -> bool, fits: (Pass, X) -> bool)
    ensures PassesOf([], turns[..0], busy, fits)
    ensures ChainedTo([], [], map[], 0) && AllVisits([]) == []
  {
  }

  lemma IdleTurn<X>(passes: seq<Pass>, turns: seq<X>, busy: X -> bool, fits: (Pass, X) -> bool, t: nat)
    requires t < |turns| && PassesOf(passes, turns[..t], busy, fits) && !busy(turns[t])
    ensures PassesOf(passes, turns[..t + 1], busy, fits)
  {
    assert turns[..t + 1][..t] == turns[..t];
  }

  lemma BusyTurn<X>(passes: seq<Pass>, turns: seq<X>, busy: X -> bool, fits: (Pass, X) -> bool, t: nat, p: Pass)
    requires t < |turns| && PassesOf(passes, turns[..t], busy, fits) && busy(turns[t]) && fits(p, turns[t])
    ensures PassesOf(passes + [p], turns[..t + 1], busy, fits)
  {
    assert turns[..t + 1][..t] == turns[..t] && (passes + [p])[..|passes|] == passes;
  }

  /** A client accepted in one pass is read in later ones only. */
  lemma ArrivalIsReadLater(passes: seq<Pass>, i: nat, j: nat, v: Visit)
    requires Chained(passes) && i < |passes| && j < |passes|
    requires v in Visits(passes[j], CAP) && v.who == passes[i].serial
    ensures i < j
  {
    VisitsAreTheReported(passes[j], CAP);
  }
}
