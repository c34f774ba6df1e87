/** udp_t/chatroom_udp: who is in the room is decided by the messages so far, kept in a map from "ip-port" to users. */
module ChatRoom {
  import Decimal

  type Port = p: nat | p < 0x1_0000

  datatype Endpoint = Endpoint(ip: string, port: Port)

  datatype Message = Message(from: Endpoint, text: string)

  datatype Datagram = Datagram(text: string, to: Endpoint)

  type Table = map<string, Endpoint>

  const ONLINE := "online"
  const OFFLINE := "offline"
  const WARNING := "You are offline.Please input 'online' to enter the chat room!"

  // ---------------------------------------------------------------- the key of a user

  function Key(e: Endpoint): string {
    e.ip + "-" + Decimal.NatToString(e.port)
  }

  /** The last '-' of a key is the one before the port. */
  lemma LastDash(e: Endpoint)
    ensures Key(e)[|e.ip|] == '-' && forall i :: |e.ip| < i < |Key(e)| ==> Key(e)[i] != '-'
  {
    var port := Decimal.NatToString(e.port);
    forall i | |e.ip| < i < |Key(e)|
      ensures Key(e)[i] != '-'
    {
      assert Key(e)[i] == port[i - |e.ip| - 1] && Decimal.IsDigit(port[i - |e.ip| - 1]);
    }
  }

  /** Different endpoints have different keys, whatever the address text is. */
  lemma KeyIsInjective(e: Endpoint, f: Endpoint)
    ensures Key(e) == Key(f) <==> e == f
  {
    if Key(e) == Key(f) {
      var key := Key(e);
      LastDash(e);
      LastDash(f);
      assert e.ip == key[..|e.ip|] && f.ip == key[..|f.ip|];
      assert Decimal.NatToString(e.port) == key[|e.ip| + 1..] && Decimal.NatToString(f.port) == key[|f.ip| + 1..];
      Decimal.ValueOfNat(e.port);
      Decimal.ValueOfNat(f.port);
    }
  }

  /** Every user is stored under its own key. */
  predicate Keyed(table: Table) {
    forall k :: k in table ==> Key(table[k]) == k
  }

  // ---------------------------------------------------------------- presence

  /** What one message does to the table. */
  function Update(table: Table, m: Message): Table {
    if m.text == OFFLINE then table - {Key(m.from)}
    else if Key(m.from) !in table && m.text == ONLINE then table[Key(m.from) := m.from]
    else table
  }

  function TableAfter(history: seq<Message>): Table {
    if history == [] then map[]
    else Update(TableAfter(history[..|history| - 1]), history[|history| - 1])
  }

  /** The endpoint has sent "online", and no "offline" since. */
  ghost predicate Present(history: seq<Message>, e: Endpoint) {
    exists i :: 0 <= i < |history| && history[i] == Message(e, ONLINE) && StaysFrom(history, e, i)
  }

  predicate StaysFrom(history: seq<Message>, e: Endpoint, i: nat) {
    forall j :: i < j < |history| ==> history[j] != Message(e, OFFLINE)
  }

  lemma PresentStep(history: seq<Message>, m: Message, e: Endpoint)
    ensures Present(history + [m], e) <==>
              m == Message(e, ONLINE) || (m != Message(e, OFFLINE) && Present(history, e))
  {
    var longer := history + [m];
    if m == Message(e, ONLINE) {
      assert longer[|history|] == Message(e, ONLINE) && StaysFrom(longer, e, |history|);
    }
    if m != Message(e, OFFLINE) && Present(history, e) {
      var i :| 0 <= i < |history| && history[i] == Message(e, ONLINE) && StaysFrom(history, e, i);
      assert longer[i] == Message(e, ONLINE) && StaysFrom(longer, e, i);
    }
    if Present(longer, e) {
      var i :| 0 <= i < |longer| && longer[i] == Message(e, ONLINE) && StaysFrom(longer, e, i);
      if i < |history| {
        assert longer[|history|] != Message(e, OFFLINE);
        forall j | i < j < |history|
          ensures history[j] != Message(e, OFFLINE)
        {
          assert longer[j] == history[j];
        }
        assert history[i] == Message(e, ONLINE) && StaysFrom(history, e, i);
      }
    }
  }

  /** After any history the table holds exactly the endpoints that are present, each under its own key. */
  lemma {:induction false} PresenceIsDecided(history: seq<Message>, e: Endpoint)
    ensures Keyed(TableAfter(history))
    ensures Key(e) in TableAfter(history) <==> Present(history, e)
    ensures Key(e) in TableAfter(history) ==> TableAfter(history)[Key(e)] == e
  {
    if history != [] {
      var earlier, m := history[..|history| - 1], history[|history| - 1];
      assert history == earlier + [m];
      PresenceIsDecided(earlier, e);
      PresentStep(earlier, m, e);
      KeyIsInjective(m.from, e);
    }
  }

  // ---------------------------------------------------------------- who gets what

  function CountTo(sent: seq<Datagram>, e: Endpoint): nat {
    if sent == [] then 0 else (if sent[0].to == e then 1 else 0) + CountTo(sent[1..], e)
  }

  function Copies(text: string, order: seq<string>, table: Table): (sent: seq<Datagram>)
    requires forall i :: 0 <= i < |order| ==> order[i] in table
  {
    seq(|order|, i requires 0 <= i < |order| => Datagram(text, table[order[i]]))
  }

  /** An order in which an iteration can come to the entries of the table. */
  ghost predicate Enumerates(order: seq<string>, table: Table)
    ensures Enumerates(order, table) ==> forall i :: 0 <= i < |order| ==> order[i] in table
  {
    && (forall k :: k in table <==> k in order)
    && forall i, j :: 0 <= i < j < |order| ==> order[i] != order[j]
  }

  lemma {:induction false} OneCopyIn(text: string, order: seq<string>, table: Table, e: Endpoint)
    requires Keyed(table) && forall i :: 0 <= i < |order| ==> order[i] in table
    requires forall i, j :: 0 <= i < j < |order| ==> order[i] != order[j]
    ensures CountTo(Copies(text, order, table), e) == if Key(e) in order then 1 else 0
  {
    if order != [] {
      var rest := order[1..];
      assert Copies(text, order, table)[1..] == Copies(text, rest, table);
      OneCopyIn(text, rest, table, e);
      KeyIsInjective(table[order[0]], e);
      assert Key(e) in order <==> Key(e) == order[0] || Key(e) in rest;
    }
  }

  /** However the table is iterated, each user in it gets one copy of a broadcast and nobody else gets any. */
  lemma OneCopyEach(text: string, order: seq<string>, table: Table, e: Endpoint)
    requires Keyed(table) && Enumerates(order, table)
    ensures CountTo(Copies(text, order, table), e) == if Key(e) in table then 1 else 0
  {
    OneCopyIn(text, order, table, e);
  }

  /** A message as the room sees it. */
  function Tagged(m: Message): string {
    "[" + Key(m.from) + "] #" + m.text
  }

  /** It begins with the sender's address and port in brackets, and the rest is the message. */
  lemma TagAndText(m: Message)
    ensures var tag := "[" + m.from.ip + "-" + Decimal.NatToString(m.from.port) + "] #";
      |tag| <= |Tagged(m)| && Tagged(m)[..|tag|] == tag && Tagged(m)[|tag|..] == m.text
  {
    assert "[" + m.from.ip + "-" + Decimal.NatToString(m.from.port) + "] #" == "[" + Key(m.from) + "] #";
  }

  lemma TagEnds(m: Message)
    requires ']' !in m.from.ip
    ensures var n := 1 + |Key(m.from)|; Tagged(m)[n] == ']' && forall i :: 0 <= i < n ==> Tagged(m)[i] != ']'
  {
    var port := Decimal.NatToString(m.from.port);
    forall i | 0 <= i < |Key(m.from)|
      ensures Key(m.from)[i] != ']'
    {
      if i > |m.from.ip| {
        assert Key(m.from)[i] == port[i - |m.from.ip| - 1] && Decimal.IsDigit(port[i - |m.from.ip| - 1]);
      }
    }
  }

  /** Whoever gets a tagged message can tell its sender and its text. */
  lemma TaggedIsInjective(m: Message, w: Message)
    requires ']' !in m.from.ip && ']' !in w.from.ip
    ensures Tagged(m) == Tagged(w) <==> m == w
  {
    if Tagged(m) == Tagged(w) {
      TagEnds(m);
      TagEnds(w);
      var n := 1 + |Key(m.from)|;
      assert Tagged(m)[1..n] == Key(m.from) && Tagged(w)[1..n] == Key(w.from);
      assert Tagged(m)[n + 3..] == m.text && Tagged(w)[n + 3..] == w.text;
      KeyIsInjective(m.from, w.from);
    }
  }

  // ---------------------------------------------------------------- the program

  class Users {
    var table: Table

    constructor ()
      ensures table == TableAfter([])
    {
      table := map[];
    }

    /** insert leaves an entry that is already there alone. */
    method Add(e: Endpoint)
      modifies this
      ensures var id := e.ip + "-" + Decimal.NatToString(e.port);
        table == if id in old(table) then old(table) else old(table)[id := e]
    {
      if Key(e) !in table {
        table := table[Key(e) := e];
      }
    }

    method Del(e: Endpoint)
      modifies this
      ensures table == old(table) - {e.ip + "-" + Decimal.NatToString(e.port)}
    {
      table := table - {Key(e)};
    }

    method IsOnline(e: Endpoint) returns (online: bool)
      ensures online <==> e.ip + "-" + Decimal.NatToString(e.port) in table
    {
      online := Key(e) in table;
    }

    method Broadcast(message: string, from: Endpoint, order: seq<string>) returns (sent: seq<Datagram>)
      requires Enumerates(order, table)
      ensures sent == Copies(Tagged(Message(from, message)), order, table)
      ensures |sent| == |order| && forall i :: 0 <= i < |order| ==>
                && sent[i].to == table[order[i]]
                && sent[i].text == "[" + from.ip + "-" + Decimal.NatToString(from.port) + "] #" + message
    {
      var msg := "[" + from.ip + "-" + Decimal.NatToString(from.port) + "] #";
      msg := msg + message;
      assert "[" + from.ip + "-" + Decimal.NatToString(from.port) == "[" + Key(from);
      sent := [];
      for i := 0 to |order|
        invariant sent == Copies(msg, order[..i], table)
      {
        assert order[..i + 1] == order[..i] + [order[i]];
        sent := sent + [Datagram(msg, table[order[i]])];
      }
      assert order[..|order|] == order;
    }
  }

  /** What the server may send for message m when the messages before it were `history`. */
  ghost predicate Answers(history: seq<Message>, m: Message, sent: seq<Datagram>) {
    if m.text == OFFLINE then sent == []
    else if !Present(history, m.from) then sent == if m.text == ONLINE then [] else [Datagram(WARNING, m.from)]
    else
      && (forall i :: 0 <= i < |sent| ==> sent[i].text == Tagged(m))
      && forall e :: CountTo(sent, e) == if Present(history, e) then 1 else 0
  }

  /**
    One message: with the table that the earlier messages left, the answer is decided by who is present, and the
    table left is that of the longer history. `order` is the order in which the map is iterated.
  */
  method ShellServer(users: Users, m: Message, order: seq<string>, ghost history: seq<Message>)
    returns (sent: seq<Datagram>)
    requires users.table == TableAfter(history) && Enumerates(order, users.table)
    modifies users
    ensures users.table == TableAfter(history + [m])
    ensures Answers(history, m, sent)
  {
    assert (history + [m])[..|history|] == history;
    PresenceIsDecided(history, m.from);
    if m.text == OFFLINE {
      users.Del(m.from);
      return [];
    }
    var online := users.IsOnline(m.from);
    if !online {
      if m.text == ONLINE {
        users.Add(m.from);
        return [];
      }
      return [Datagram(WARNING, m.from)];
    }
    sent := users.Broadcast(m.text, m.from, order);
    forall e
      ensures CountTo(sent, e) == if Present(history, e) then 1 else 0
    {
      PresenceIsDecided(history, e);
      OneCopyEach(Tagged(m), order, users.table, e);
    }
  }
}
