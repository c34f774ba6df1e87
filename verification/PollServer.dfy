/** IO/poll_server: the array _fds that poll itself writes, rewritten while a pass scans it. */
module PollServerModel {
  import opened SlotTable

  const POLLIN: bv16 := 1
  const ALWAYS: bv16 := 0x38    // POLLERR, POLLHUP and POLLNVAL, which poll reports unasked

  datatype PollFd = PollFd(fd: int, events: bv16, revents: bv16)

  const RESET: PollFd := PollFd(FREE, 0, 0)

  /** One turn of the main loop: poll's result and reports, accept's answer, and what each slot's read would return. */
  datatype Turn = Turn(n: int, reports: seq<bv16>, accepted: int, answers: seq<Answer>)

  function Fds(table: seq<PollFd>): (fds: seq<int>)
    ensures |fds| == |table| && forall i :: 0 <= i < |table| ==> fds[i] == table[i].fd
  {
    seq(|table|, i requires 0 <= i < |table| => table[i].fd)
  }

  predicate Readable(entry: PollFd) {
    entry.revents & POLLIN != 0
  }

  function Due(table: seq<PollFd>): (due: seq<bool>)
    ensures |due| == |table| && forall i :: 0 <= i < |table| ==> due[i] == Readable(table[i])
  {
    seq(|table|, i requires 0 <= i < |table| => Readable(table[i]))
  }

  function Arrivals(table: seq<PollFd>, accepted: int): seq<int>
    requires |table| == CAP
  {
    if Readable(table[0]) && accepted != -1 then [accepted] else []
  }

  /** Occupied entries ask for input, and free ones ask for and report nothing. */
  predicate Tidy(entry: PollFd) {
    if entry.fd == FREE then entry == RESET else entry.events == POLLIN
  }

  /** What poll writes into an entry: nothing for a free one, and no event that was neither asked for nor unasked. */
  function Report(entry: PollFd, report: bv16): PollFd {
    entry.(revents := if entry.fd < 0 then 0 else report & (entry.events | ALWAYS))
  }

  /** The array and the connections. */
  datatype Slots = Slots(table: seq<PollFd>, conns: map<int, nat>)

  /** What one turn of the scan makes of entry i, when connection number `serial` comes next. */
  function Looked(s: Slots, i: nat, accepted: int, serial: nat, answer: Answer): Slots
    requires i < |s.table|
  {
    var k := FirstFree(Fds(s.table));
    if !Readable(s.table[i]) then s
    else if i == 0 then
      if accepted == -1 || k == |s.table| then s
      else Slots(s.table[k := PollFd(accepted, POLLIN, 0)], s.conns[accepted := serial])
    else
      if Closes(answer) then Slots(s.table[i := RESET], s.conns - {s.table[i].fd}) else s
  }

  function VisitOf(s: Slots, i: nat): seq<Visit>
    requires i < |s.table|
  {
    if i > 0 && Readable(s.table[i]) && s.table[i].fd in s.conns then [Visit(i, s.conns[s.table[i].fd])] else []
  }

  /** The array, the connections and the visits when the pass is about to look at entry i. */
  ghost predicate Reached(p: Pass, i: nat, s: Slots, visits: seq<Visit>)
    requires Proper(p)
    ensures Reached(p, i, s, visits) ==> |s.table| == CAP
  {
    && (if i == 0 then Fds(s.table) == p.fds && s.conns == p.conns && visits == []
        else Scanned(p, i, Fds(s.table), s.conns, visits))
    && (forall j :: i <= j < CAP ==> p.due[j] == Readable(s.table[j]))
    && (i == 0 ==> forall j :: 0 <= j < CAP ==> Tidy(s.table[j]))
  }

  lemma ReachNext(p: Pass, accepted: int, i: nat, s: Slots, visits: seq<Visit>)
    requires Proper(p) && p.arrivals == (if p.due[0] && accepted != -1 then [accepted] else [])
    requires i < CAP && Reached(p, i, s, visits)
    ensures Reached(p, i + 1, Looked(s, i, accepted, p.serial, p.answers[i]), visits + VisitOf(s, i))
  {
    var k := FirstFree(p.fds);
    if i == 0 {
      ScanListener(p);
      if p.arrivals != [] && k < CAP {
        assert Fds(s.table[k := PollFd(accepted, POLLIN, 0)]) == p.fds[k := accepted];
      }
    } else if p.due[i] {
      ScanReported(p, i, Fds(s.table), s.conns, visits);
      assert Fds(s.table[i := RESET]) == Fds(s.table)[i := FREE];
    } else {
      ScanPast(p, i, Fds(s.table), s.conns, visits);
    }
  }

  lemma AllReached(p: Pass, s: Slots, visits: seq<Visit>)
    requires Proper(p) && Reached(p, CAP, s, visits)
    ensures visits == Visits(p, CAP) && Leaves(p, Fds(s.table), s.conns)
  {
  }

  /** The pass of one turn: what poll reported for every entry, and what accept returned if it was called. */
  ghost predicate IsPassOf(p: Pass, turn: Turn)
    ensures IsPassOf(p, turn) ==> Proper(p)
  {
    && Proper(p) && p.answers == turn.answers && |turn.reports| == CAP
    && (forall k :: 0 <= k < CAP ==> (p.due[k] <==> p.fds[k] != FREE && turn.reports[k] & POLLIN != 0))
    && p.arrivals == if p.due[0] && Unused(turn.accepted, p.conns, p.sock) then [turn.accepted] else []
  }

  predicate IsBusy(turn: Turn) { turn.n > 0 }

  lemma ReportedInput(report: bv16)
    ensures report & (POLLIN | ALWAYS) & POLLIN == report & POLLIN && 0 & POLLIN == 0
  {
  }

  class PollServer {
    const sock: int
    const table: array<PollFd>         // _fds
    ghost var conns: map<int, nat>     // the open client sockets, and which connection each number stands for
    ghost var serial: nat              // connections accepted so far
    ghost var visits: seq<Visit>       // calls of recver so far

    ghost predicate Valid()
      reads this, table
      ensures Valid() ==> table.Length == CAP
    {
      && Agree(Fds(table[..]), conns, sock) && Numbered(conns, serial)
      && forall i :: 0 <= i < table.Length ==> Tidy(table[i])
    }

    /** The constructor and init. */
    constructor (sock: int)
      requires sock >= 0
      ensures Valid() && this.sock == sock && fresh(table) && visits == []
      ensures forall fd :: fd !in conns
    {
      this.sock := sock;
      table := new PollFd[CAP](i => if i == 0 then PollFd(sock, POLLIN, 0) else RESET);
      conns, serial, visits := map[], 0, [];
      new;
      assert forall i :: 0 < i < CAP ==> Fds(table[..])[i] == FREE;
    }

    /** The array as poll leaves it. */
    method Poll(reports: seq<bv16>)
      requires Valid() && |reports| == CAP
      modifies table
      ensures Valid() && Fds(table[..]) == Fds(old(table[..]))
      ensures forall i :: 0 <= i < CAP ==> table[i] == Report(old(table[i]), reports[i])
    {
      forall i | 0 <= i < table.Length {
        table[i] := Report(table[i], reports[i]);
      }
      assert Fds(table[..]) == Fds(old(table[..]));
    }

    method ResetPollFd(pos: nat)
      requires pos < table.Length
      modifies table
      ensures table[..] == old(table[..])[pos := RESET]
    {
      table[pos] := RESET;
    }

    /** acceptor: the new descriptor goes to the first free entry, or is closed when there is none. */
    method Acceptor(accepted: int)
      requires Valid() && (accepted == -1 || Unused(accepted, conns, sock))
      modifies table, `conns, `serial
      ensures Valid() && serial >= old(serial)
      ensures var k := FirstFree(Fds(old(table[..])));
              if accepted == -1 || k == CAP then table[..] == old(table[..]) && conns == old(conns)
              else && table[..] == old(table[..])[k := PollFd(accepted, POLLIN, 0)]
                   && conns == old(conns)[accepted := old(serial)]
    {
      if accepted == -1 {
        return;
      }
      var i := 0;
      while i < table.Length && table[i].fd != FREE
        invariant i <= table.Length && forall j :: 0 <= j < i ==> table[j].fd != FREE
      {
        i := i + 1;
      }
      ghost var fds := Fds(table[..]);
      FirstFreeIs(fds, i);
      if i == table.Length {
        return;   // close(fd): it is never an open client
      }
      AgreeAfterAccept(fds, conns, sock, accepted, serial);
      assert table[i].revents == 0;
      table[i] := table[i].(fd := accepted, events := POLLIN);
      assert table[..] == old(table[..])[i := PollFd(accepted, POLLIN, 0)];
      assert Fds(table[..]) == fds[i := accepted];
      conns, serial := conns[accepted := serial], serial + 1;
    }

    /** recver on an occupied entry: a failed or empty read closes the client and resets the entry. */
    method Recver(pos: nat, answer: Answer)
      requires Valid() && 0 < pos < CAP && table[pos].fd != FREE
      modifies table, `conns, `visits
      ensures Valid()
      ensures visits == old(visits) + [Visit(pos, old(conns)[old(table[pos]).fd])]
      ensures if answer == Failed || answer == Bytes("")
              then table[..] == old(table[..])[pos := RESET] && conns == old(conns) - {old(table[pos]).fd}
              else table[..] == old(table[..]) && conns == old(conns)
    {
      ghost var fds := Fds(table[..]);
      visits := visits + [Visit(pos, conns[table[pos].fd])];
      if Closes(answer) {
        AgreeAfterClose(fds, conns, sock, pos);
        conns := conns - {table[pos].fd};
        ResetPollFd(pos);
        assert Fds(table[..]) == fds[pos := FREE];
      }
    }

    ghost function View(): Slots
      reads this, table
    {
      Slots(table[..], conns)
    }

    /** The body of handle_events's loop. */
    method Look(i: nat, accepted: int, answer: Answer)
      requires Valid() && i < CAP
      requires i == 0 ==> accepted == -1 || Unused(accepted, conns, sock)
      modifies table, `conns, `serial, `visits
      ensures Valid() && serial >= old(serial)
      ensures View() == Looked(old(View()), i, accepted, old(serial), answer)
      ensures visits == old(visits) + VisitOf(old(View()), i)
    {
      assert table[i].fd == Fds(table[..])[i];
      if table[i].fd != FREE && table[i].events & POLLIN != 0 {
        if table[i].fd == sock && table[i].revents & POLLIN != 0 {
          Acceptor(accepted);
        } else if table[i].revents & POLLIN != 0 {
          Recver(i, answer);
        }
      }
    }

    /** The pass that begins now. */
    ghost function Begin(accepted: int, answers: seq<Answer>): Pass
      requires table.Length == CAP
      reads this, table
    {
      Pass(sock, Fds(table[..]), conns, Due(table[..]), answers, Arrivals(table[..], accepted), serial)
    }

    /** handle_events's loop. */
    method Scan(ghost p: Pass, accepted: int, answers: seq<Answer>)
      requires Proper(p) && p.arrivals == (if p.due[0] && accepted != -1 then [accepted] else [])
      requires accepted == -1 || Unused(accepted, conns, sock)
      requires Valid() && Reached(p, 0, View(), []) && p.answers == answers && p.serial == serial
      modifies this, table
      ensures Valid() && p.serial <= serial
      ensures visits == old(visits) + Visits(p, CAP) && Leaves(p, Fds(table[..]), conns)
    {
      ghost var past := visits;
      ghost var seen: seq<Visit> := [];
      assert |answers| == CAP;
      hide *;
      for i := 0 to table.Length
        invariant table.Length == CAP && Valid() && visits == past + seen && Reached(p, i, View(), seen)
        invariant p.serial <= serial && (i == 0 ==> serial == p.serial && View() == old(View()))
      {
        ghost var now := View();
        ReachNext(p, accepted, i, now, seen);
        Regroup(past, seen, VisitOf(now, i));
        seen := seen + VisitOf(now, i);
        Look(i, accepted, answers[i]);
      }
      AllReached(p, View(), seen);
    }

    /**
      One pass over the array that poll has written. recver runs exactly once for every client reported readable,
      in array order, on the connection poll reported, and never for the one accepted in the pass, because a
      free entry carries no report; the array is left with the arrival in the first entry that was free and
      without the clients that closed.
    */
    method HandleEvents(accepted: int, answers: seq<Answer>)
      requires Valid() && |answers| == CAP
      requires accepted == -1 || Unused(accepted, conns, sock)
      modifies this, table
      ensures Valid()
      ensures var p := old(Begin(accepted, answers));
              && Proper(p) && visits == old(visits) + Visits(p, CAP)
              && Leaves(p, Fds(table[..]), conns) && p.serial <= serial
    {
      ghost var p := Begin(accepted, answers);
      assert Proper(p) && Reached(p, 0, View(), []);
      Scan(p, accepted, answers);
    }

    /** accept's answer, or -1 if it is not a descriptor that accept could return. */
    method Accepted(accepted: int) returns (fd: int)
      requires Valid()
      ensures fd == if Unused(accepted, conns, sock) then accepted else -1
    {
      ghost var fds := Fds(table[..]);
      for i := 0 to table.Length
        invariant forall j :: 0 <= j < i ==> fds[j] != accepted
      {
        assert table[i].fd == fds[i];
        if table[i].fd == accepted {
          return -1;
        }
      }
      return if accepted < 0 then -1 else accepted;
    }

    /** One pass over what poll reports. */
    method OnePass(turn: Turn) returns (ghost p: Pass)
      requires Valid() && |turn.answers| == |turn.reports| == CAP
      modifies this, table
      ensures Valid() && IsPassOf(p, turn)
      ensures p.fds == Fds(old(table[..])) && p.conns == old(conns) && p.serial == old(serial)
      ensures visits == old(visits) + Visits(p, CAP) && Leaves(p, Fds(table[..]), conns) && p.serial <= serial
    {
      hide Agree, Visits, Leaves, Numbered;
      NoneBelowFree(Fds(table[..]), conns, sock);
      Poll(turn.reports);
      forall k | 0 <= k < CAP
        ensures Readable(table[k]) <==> table[k].fd != FREE && turn.reports[k] & POLLIN != 0
      {
        ReportedInput(turn.reports[k]);
        assert Tidy(old(table[k])) && Fds(old(table[..]))[k] == old(table[k]).fd;
      }
      var accepted := Accepted(turn.accepted);
      p := Begin(accepted, turn.answers);
      HandleEvents(accepted, turn.answers);
    }

    /**
      Any number of turns of the main loop keeps the array and the open clients in agreement. The calls of recver are
      those of one pass after the other, each of which begins with the array that the one before it left.
    */
    method Run(turns: seq<Turn>) returns (ghost passes: seq<Pass>)
      requires Valid()
      requires forall t :: 0 <= t < |turns| ==> |turns[t].answers| == |turns[t].reports| == CAP
      modifies this, table
      ensures Valid() && PassesOf(passes, turns, IsBusy, IsPassOf)
      ensures ChainedTo(passes, Fds(table[..]), conns, serial) && visits == old(visits) + AllVisits(passes)
      ensures Fds(old(table[..])) == if passes == [] then Fds(table[..]) else passes[0].fds
    {
      hide Agree, Proper, Leaves, Chained, PassesOf, IsPassOf, Visits;
      passes := [];
      NoTurns(turns, IsBusy, IsPassOf);
      for t := 0 to |turns|
        invariant Valid() && PassesOf(passes, turns[..t], IsBusy, IsPassOf)
        invariant ChainedTo(passes, Fds(table[..]), conns, serial) && visits == old(visits) + AllVisits(passes)
        invariant Fds(old(table[..])) == if passes == [] then Fds(table[..]) else passes[0].fds
      {
        if turns[t].n > 0 {
          ghost var p := OnePass(turns[t]);
          ChainGrows(passes, p, Fds(table[..]), conns, serial);
          Regroup(old(visits), AllVisits(passes), Visits(p, CAP));
          BusyTurn(passes, turns, IsBusy, IsPassOf, t, p);
          passes := passes + [p];
        } else {
          if turns[t].n == 0 {
            Poll(turns[t].reports);
          }
          IdleTurn(passes, turns, IsBusy, IsPassOf, t);
        }
      }
      assert turns[..|turns|] == turns;
    }
  }
}
