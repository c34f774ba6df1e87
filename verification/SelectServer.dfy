/** IO/select_server: the descriptor table _rfdarray, rewritten while a pass over select's answer scans it. */
module SelectServerModel {
  import opened SlotTable

  /** One turn of the main loop: select's result and set, accept's answer, and what each slot's read would return. */
  datatype Turn = Turn(n: int, ready: set<int>, accepted: int, answers: seq<Answer>)

  /** FD_ISSET for every slot. */
  function Due(fds: seq<int>, ready: set<int>): (due: seq<bool>)
    ensures |due| == |fds| && forall i :: 0 <= i < |fds| ==> due[i] == (fds[i] in ready)
  {
    seq(|fds|, i requires 0 <= i < |fds| => fds[i] in ready)
  }

  /** The descriptors a pass accepts: at most one, and only when the listener was reported. */
  function Arrivals(sock: int, ready: set<int>, accepted: int): seq<int> {
    if sock in ready && accepted != -1 then [accepted] else []
  }

  /** The pass of one turn: FD_ISSET for every slot, and what accept returned if it was called. */
  ghost predicate IsPassOf(p: Pass, turn: Turn)
    ensures IsPassOf(p, turn) ==> Proper(p)
  {
    && Proper(p) && p.answers == turn.answers
    && (forall k :: 0 <= k < CAP ==> (p.due[k] <==> p.fds[k] != FREE && p.fds[k] in turn.ready))
    && p.arrivals == if p.due[0] && Unused(turn.accepted, p.conns, p.sock) then [turn.accepted] else []
  }

  predicate IsBusy(turn: Turn) { turn.n > 0 }

  ghost predicate Known(p: Pass, ready: set<int>) {
    forall fd :: fd in ready ==> fd == p.sock || fd in p.conns
  }

  /** The table and the connections. */
  datatype Slots = Slots(fds: seq<int>, conns: map<int, nat>)

  /** What one turn of the scan makes of slot i, when connection number `serial` comes next. */
  function Looked(s: Slots, i: nat, ready: set<int>, accepted: int, serial: nat, answer: Answer): Slots
    requires i < |s.fds|
  {
    var k := FirstFree(s.fds);
    if s.fds[i] == FREE || s.fds[i] !in ready then s
    else if i == 0 then
      if accepted == -1 || k == |s.fds| then s else Slots(s.fds[k := accepted], s.conns[accepted := serial])
    else
      if Closes(answer) then Slots(s.fds[i := FREE], s.conns - {s.fds[i]}) else s
  }

  function VisitOf(s: Slots, i: nat, ready: set<int>): seq<Visit>
    requires i < |s.fds|
  {
    if i > 0 && s.fds[i] != FREE && s.fds[i] in ready && s.fds[i] in s.conns then [Visit(i, s.conns[s.fds[i]])] else []
  }

  /** The table, the connections and the visits when the pass is about to look at slot i. */
  ghost predicate Reached(p: Pass, i: nat, s: Slots, visits: seq<Visit>)
    requires Proper(p)
    ensures Reached(p, i, s, visits) ==> |s.fds| == CAP
  {
    if i == 0 then s == Slots(p.fds, p.conns) && visits == [] else Scanned(p, i, s.fds, s.conns, visits)
  }

  lemma ReachNext(p: Pass, ready: set<int>, accepted: int, i: nat, s: Slots, visits: seq<Visit>)
    requires Proper(p) && p.due == Due(p.fds, ready) && p.arrivals == Arrivals(p.sock, ready, accepted)
    requires Known(p, ready)
    requires i < CAP && Reached(p, i, s, visits)
    ensures Reached(p, i + 1, Looked(s, i, ready, accepted, p.serial, p.answers[i]), visits + VisitOf(s, i, ready))
  {
    if i == 0 {
      ScanListener(p);
    } else if p.due[i] {
      ScanReported(p, i, s.fds, s.conns, visits);
    } else {
      ScanPast(p, i, s.fds, s.conns, visits);
      assert s.fds[i] !in ready;
    }
  }

  lemma AllReached(p: Pass, s: Slots, visits: seq<Visit>)
    requires Proper(p) && Reached(p, CAP, s, visits)
    ensures visits == Visits(p, CAP) && Leaves(p, s.fds, s.conns)
  {
  }

  class SelectServer {
    const sock: int
    const slots: array<int>            // _rfdarray
    ghost var conns: map<int, nat>     // the open client sockets, and which connection each number stands for
    ghost var serial: nat              // connections accepted so far
    ghost var visits: seq<Visit>       // calls of recver so far

    ghost predicate Valid()
      reads this, slots
      ensures Valid() ==> slots.Length == CAP
    {
      Agree(slots[..], conns, sock) && Numbered(conns, serial)
    }

    /** The constructor and init. */
    constructor (sock: int)
      requires sock >= 0
      ensures Valid() && this.sock == sock && fresh(slots) && visits == []
      ensures forall fd :: fd !in conns
    {
      this.sock := sock;
      var table := new int[CAP](i => if i == 0 then sock else FREE);
      slots := table;
      conns, serial, visits := map[], 0, [];
      new;
      assert forall i :: 0 < i < CAP ==> slots[..][i] == FREE;
    }

    /** The set handed to select and the highest number in it. */
    method Register() returns (fds: set<int>, maxfd: int)
      requires Valid()
      ensures forall fd :: fd in fds <==> fd == sock || fd in conns
      ensures maxfd in fds && forall fd :: fd in fds ==> fd <= maxfd
    {
      fds := {};
      maxfd := slots[0];
      for i := 0 to slots.Length
        invariant forall fd :: fd in fds <==> fd in slots[..i] && fd != FREE
        invariant i > 0 ==> maxfd in fds
        invariant i == 0 ==> maxfd == slots[0]
        invariant forall fd :: fd in fds ==> fd <= maxfd
      {
        assert slots[..i + 1] == slots[..i] + [slots[i]];
        if slots[i] != FREE {
          fds := fds + {slots[i]};
          if slots[i] > maxfd {
            maxfd := slots[i];
          }
        }
      }
      assert slots[..slots.Length] == slots[..];
    }

    /** acceptor: the new descriptor goes to the first free slot, or is closed when there is none. */
    method Acceptor(accepted: int)
      requires Valid() && (accepted == -1 || Unused(accepted, conns, sock))
      modifies slots, `conns, `serial
      ensures Valid() && serial >= old(serial)
      ensures var k := FirstFree(old(slots[..]));
              if accepted == -1 || k == CAP then slots[..] == old(slots[..]) && conns == old(conns)
              else slots[..] == old(slots[..])[k := accepted] && conns == old(conns)[accepted := old(serial)]
    {
      if accepted == -1 {
        return;
      }
      var i := 0;
      while i < slots.Length && slots[i] != FREE
        invariant i <= slots.Length && forall j :: 0 <= j < i ==> slots[j] != FREE
      {
        i := i + 1;
      }
      FirstFreeIs(slots[..], i);
      if i == slots.Length {
        return;   // close(fd): it is never an open client
      }
      AgreeAfterAccept(slots[..], conns, sock, accepted, serial);
      slots[i] := accepted;
      assert slots[..] == old(slots[..])[i := accepted];
      conns, serial := conns[accepted := serial], serial + 1;
    }

    /** recver on an occupied slot: a failed or empty read closes the client and frees the slot. */
    method Recver(pos: nat, answer: Answer)
      requires Valid() && 0 < pos < CAP && slots[pos] != FREE
      modifies slots, `conns, `visits
      ensures Valid()
      ensures visits == old(visits) + [Visit(pos, old(conns)[old(slots[pos])])]
      ensures if answer == Failed || answer == Bytes("")
              then slots[..] == old(slots[..])[pos := FREE] && conns == old(conns) - {old(slots[pos])}
              else slots[..] == old(slots[..]) && conns == old(conns)
    {
      visits := visits + [Visit(pos, conns[slots[pos]])];
      if Closes(answer) {
        AgreeAfterClose(slots[..], conns, sock, pos);
        conns := conns - {slots[pos]};
        slots[pos] := FREE;
        assert slots[..] == old(slots[..])[pos := FREE];
      }
    }

    ghost function View(): Slots
      reads this, slots
    {
      Slots(slots[..], conns)
    }

    /** The body of handle_readevents's loop. */
    method Look(i: nat, ready: set<int>, accepted: int, answer: Answer)
      requires Valid() && i < CAP
      requires i == 0 ==> accepted == -1 || Unused(accepted, conns, sock)
      modifies slots, `conns, `serial, `visits
      ensures Valid() && serial >= old(serial)
      ensures View() == Looked(old(View()), i, ready, accepted, old(serial), answer)
      ensures visits == old(visits) + VisitOf(old(View()), i, ready)
    {
      assert slots[i] == slots[..][i];
      if slots[i] != FREE {
        if slots[i] in ready && slots[i] == sock {
          Acceptor(accepted);
        } else if slots[i] in ready {
          Recver(i, answer);
        }
      }
    }

    /** The pass that begins now. */
    ghost function Begin(ready: set<int>, accepted: int, answers: seq<Answer>): Pass
      reads this, slots
    {
      Pass(sock, slots[..], conns, Due(slots[..], ready), answers, Arrivals(sock, ready, accepted), serial)
    }

    /** handle_readevents's loop. */
    method Scan(ghost p: Pass, ready: set<int>, accepted: int, answers: seq<Answer>)
      requires Proper(p) && p.due == Due(p.fds, ready) && p.arrivals == Arrivals(p.sock, ready, accepted)
      requires Known(p, ready)
      requires accepted == -1 || Unused(accepted, conns, sock)
      requires Valid() && Reached(p, 0, View(), []) && p.answers == answers && p.serial == serial
      modifies this, slots
      ensures Valid() && p.serial <= serial
      ensures visits == old(visits) + Visits(p, CAP) && Leaves(p, slots[..], conns)
    {
      ghost var past := visits;
      ghost var seen: seq<Visit> := [];
      assert |answers| == CAP;
      hide *;
      for i := 0 to slots.Length
        invariant slots.Length == CAP && Valid() && visits == past + seen && Reached(p, i, View(), seen)
        invariant p.serial <= serial && (i == 0 ==> serial == p.serial && View() == old(View()))
      {
        ghost var now := View();
        ReachNext(p, ready, accepted, i, now, seen);
        Regroup(past, seen, VisitOf(now, i, ready));
        seen := seen + VisitOf(now, i, ready);
        Look(i, ready, accepted, answers[i]);
      }
      AllReached(p, View(), seen);
    }

    /**
      One pass over the set that select reported. recver runs exactly once for every client reported ready, in
      slot order, on the connection select reported, and never for the one accepted in the pass; the table is
      left with the arrival in the first slot that was free and without the clients that closed.
    */
    method HandleReadEvents(ready: set<int>, accepted: int, answers: seq<Answer>)
      requires Valid() && |answers| == CAP
      requires forall fd :: fd in ready ==> fd == sock || fd in conns
      requires accepted == -1 || Unused(accepted, conns, sock)
      modifies this, slots
      ensures Valid()
      ensures var p := old(Begin(ready, accepted, answers));
              Proper(p) && visits == old(visits) + Visits(p, CAP) && Leaves(p, slots[..], conns) && p.serial <= serial
    {
      ghost var p := Begin(ready, accepted, answers);
      assert Proper(p);
      Scan(p, ready, accepted, answers);
    }

    /** One pass, with what select makes of whatever is ready and accept of whatever arrives. */
    method OnePass(turn: Turn, fds: set<int>) returns (ghost p: Pass)
      requires Valid() && |turn.answers| == CAP && forall fd :: fd in fds <==> fd == sock || fd in conns
      modifies this, slots
      ensures Valid() && IsPassOf(p, turn)
      ensures p.fds == old(slots[..]) && p.conns == old(conns) && p.serial == old(serial)
      ensures visits == old(visits) + Visits(p, CAP) && Leaves(p, slots[..], conns) && p.serial <= serial
    {
      hide Agree, Visits, Leaves, Numbered;
      var reported := set fd | fd in turn.ready && fd in fds;
      var accepted := turn.accepted;
      if accepted < 0 || accepted in fds {
        accepted := -1;   // not a descriptor that accept could return
      }
      p := Begin(reported, accepted, turn.answers);
      HandleReadEvents(reported, accepted, turn.answers);
    }

    /**
      Any number of turns of the main loop keeps the table and the open clients in agreement. The calls of recver are
      those of one pass after the other, each of which begins with the table that the one before it left.
    */
    method Run(turns: seq<Turn>) returns (ghost passes: seq<Pass>)
      requires Valid() && forall t :: 0 <= t < |turns| ==> |turns[t].answers| == CAP
      modifies this, slots
      ensures Valid() && PassesOf(passes, turns, IsBusy, IsPassOf) && ChainedTo(passes, slots[..], conns, serial)
      ensures visits == old(visits) + AllVisits(passes)
      ensures if passes == [] then slots[..] == old(slots[..]) else passes[0].fds == old(slots[..])
    {
      hide Agree, Proper, Leaves, Chained, PassesOf, IsPassOf, Visits;
      passes := [];
      NoTurns(turns, IsBusy, IsPassOf);
      for t := 0 to |turns|
        invariant Valid() && PassesOf(passes, turns[..t], IsBusy, IsPassOf)
        invariant ChainedTo(passes, slots[..], conns, serial)
        invariant visits == old(visits) + AllVisits(passes)
        invariant if passes == [] then slots[..] == old(slots[..]) else passes[0].fds == old(slots[..])
      {
        var fds, _ := Register();
        if turns[t].n > 0 {
          ghost var p := OnePass(turns[t], fds);
          ChainGrows(passes, p, slots[..], conns, serial);
          Regroup(old(visits), AllVisits(passes), Visits(p, CAP));
          BusyTurn(passes, turns, IsBusy, IsPassOf, t, p);
          passes := passes + [p];
        } else {
          IdleTurn(passes, turns, IsBusy, IsPassOf, t);
        }
      }
      assert turns[..|turns|] == turns;
    }
  }
}
