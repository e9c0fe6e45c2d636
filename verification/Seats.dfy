/** The clients of a server and their data channels: what each consists of, and that they share nothing. */
module Seats {
  import opened Clients
  import opened ControlChannel
  import opened DataEvents
  import opened Dtp
  import opened DtpPoll
  import opened DtpRuns
  import opened Serving
  import opened Sessions
  import opened Turns

  // ---------- One client ----------

  /** The parts that a client has for good. */
  ghost function OwnParts(client: Client): set<object> {
    {client, client.input, client.input.buffer, client.input.line,
     client.output, client.output.buffer, client.output.line}
  }

  /** Everything a client consists of; some of it may belong to its working directory no more. */
  ghost function Reach(client: Client): set<object>
    reads client, client.cwd
  {
    OwnParts(client) + {client.cwd}
    + (set o: object | o in client.owned) + set o: object | o in client.cwd.nodes
  }

  /** The client is in step with what it has received, and its output buffer holds what it has been told since. */
  ghost predicate Ready(rules: Rules, client: Client)
    reads client, client.cwd, client.cwd.nodes, client.input, client.input.buffer
    reads client.output, client.output.buffer
  {
    Follows(rules, client.pathMax) && InSync(rules, client) && exists given :: Waiting(client, given)
  }

  lemma IsReady(rules: Rules, client: Client, given: seq<string>)
    requires Follows(rules, client.pathMax) && InSync(rules, client) && Waiting(client, given)
    ensures Ready(rules, client)
    ensures forall o :: o in Reach(client) ==> o in OwnParts(client) || o == client.cwd || o in client.owned
  {
  }

  /**
   * What a turn comes to: what was there has been received, the client is closed exactly when its connection ends or
   * there is no room, and otherwise it leaves exactly when a QUIT stands.
   */
  ghost predicate TurnDid(outcome: Turn, was: string, received: string, listens: bool, arrival: Arrival, room: int,
                          log: seq<Event>)
  {
    && received == was + Heard(listens, arrival, room) && (outcome.Closed? <==> Loses(listens, arrival, room))
    && (outcome.Stays? || outcome.Left? ==> (outcome.Left? <==> QuitStands(log)))
  }

  // ---------- All clients ----------

  const MAX_CLIENTS: nat := 25

  /** A connected client, and its data channel if it has one. */
  datatype Seat = Seat(client: Client, data: Channel?)

  function ClientsOf(seats: seq<Seat>): (cs: seq<Client>)
    ensures |cs| == |seats| && forall i :: 0 <= i < |cs| ==> cs[i] == seats[i].client
  {
    seq(|seats|, i requires 0 <= i < |seats| => seats[i].client)
  }

  /** Everything these clients consist of. */
  ghost function ReachOf(clients: seq<Client>): set<object>
    reads clients, set c | c in clients :: c.cwd
  {
    set c, o | c in clients && o in Reach(c) :: o
  }

  /** Every client is ready for its turn. */
  ghost predicate AllReady(rules: Rules, clients: seq<Client>)
    reads *
  {
    forall i {:trigger Ready(rules, clients[i])} :: 0 <= i < |clients| ==> Ready(rules, clients[i])
  }

  /** Clients share nothing with each other, and nothing with the channels or the lists of these. */
  ghost predicate Disjoint(clients: seq<Client>, rest: set<object>)
    reads *
  {
    && (forall i, j :: 0 <= i < j < |clients| ==> Reach(clients[i]) !! Reach(clients[j]))
    && forall i :: 0 <= i < |clients| ==> Reach(clients[i]) !! rest
  }

  /** A client's channel is one of those there are, has not been let go of, and is no other client's. */
  ghost predicate Held(seats: seq<Seat>, channels: seq<Channel>)
    reads channels
  {
    && (forall i :: 0 <= i < |seats| && seats[i].data != null ==>
          seats[i].data in channels && GetState(seats[i].data.state) < DTP_FREE)
    && forall i, j :: 0 <= i < j < |seats| && seats[i].data != null ==> seats[i].data != seats[j].data
  }

  /** What holds between any two steps of a run. */
  ghost predicate InOrder(rules: Rules, lists: ChannelLists, seats: seq<Seat>, channels: seq<Channel>,
                          current: seq<Channel>, pending: seq<Channel>)
    reads *
  {
    && Holds(lists, channels, current, pending) && (forall c :: c in channels ==> c.Conserves())
    && Held(seats, channels) && |seats| <= MAX_CLIENTS
    && AllReady(rules, ClientsOf(seats)) && Disjoint(ClientsOf(seats), Feet(channels) + {lists})
  }

  /** A client's channel is in the lists and has not been given back. */
  lemma HeldIsListed(rules: Rules, lists: ChannelLists, seats: seq<Seat>, channels: seq<Channel>,
                     current: seq<Channel>, pending: seq<Channel>, i: nat)
    requires InOrder(rules, lists, seats, channels, current, pending) && i < |seats| && seats[i].data != null
    ensures seats[i].data in current + pending && !seats[i].data.freed
  {
    var data: Channel := seats[i].data;
    assert data in channels;
    assert data in current + pending;
    if data in current {
      var k :| 0 <= k < |current| && current[k] == data;
      assert !current[k].freed;
    } else {
      var k :| 0 <= k < |pending| && pending[k] == data;
      assert !pending[k].freed;
    }
  }

  // ---------- What a step leaves alone ----------

  /** What each client consists of, at one moment. */
  ghost function Parts(clients: seq<Client>): (parts: map<Client, set<object>>)
    reads clients, set c | c in clients :: c.cwd
    ensures forall c :: c in clients ==> c in parts && parts[c] == Reach(c)
  {
    map c | c in clients :: Reach(c)
  }

  /** What these of the clients consisted of. */
  function PartsOf(parts: map<Client, set<object>>, clients: seq<Client>): set<object> {
    set c, o | c in clients && c in parts && o in parts[c] :: o
  }

  /** Ready, and made of the same parts as before. */
  ghost predicate Steady(rules: Rules, parts: map<Client, set<object>>, client: Client)
    reads Reach(client)
  {
    Ready(rules, client) && client in parts && Reach(client) == parts[client]
  }

  ghost predicate AllSteady(rules: Rules, parts: map<Client, set<object>>, clients: seq<Client>)
    reads *
  {
    forall i {:trigger Steady(rules, parts, clients[i])} :: 0 <= i < |clients| ==> Steady(rules, parts, clients[i])
  }

  /** The parts are as apart as they should be. */
  ghost predicate PartsApart(parts: map<Client, set<object>>, clients: seq<Client>, rest: set<object>) {
    && (forall i :: 0 <= i < |clients| ==> clients[i] in parts && parts[clients[i]] !! rest)
    && forall i, j :: 0 <= i < j < |clients| ==> parts[clients[i]] !! parts[clients[j]]
  }

  lemma SteadyNow(rules: Rules, parts: map<Client, set<object>>, clients: seq<Client>, rest: set<object>)
    requires AllReady(rules, clients) && Disjoint(clients, rest) && parts == Parts(clients)
    ensures AllSteady(rules, parts, clients) && PartsApart(parts, clients, rest)
  {
    forall i | 0 <= i < |clients|
      ensures Steady(rules, parts, clients[i])
    {
      assert Ready(rules, clients[i]);
    }
  }

  lemma ReachesAre(parts: map<Client, set<object>>, clients: seq<Client>)
    requires forall i :: 0 <= i < |clients| ==> clients[i] in parts && Reach(clients[i]) == parts[clients[i]]
    ensures ReachOf(clients) == PartsOf(parts, clients)
  {
    forall c | c in clients
      ensures c in parts && Reach(c) == parts[c]
    {
      var i :| 0 <= i < |clients| && clients[i] == c;
    }
  }

  lemma SteadyThen(rules: Rules, parts: map<Client, set<object>>, clients: seq<Client>, rest: set<object>)
    requires AllSteady(rules, parts, clients) && PartsApart(parts, clients, rest)
    ensures AllReady(rules, clients) && Disjoint(clients, rest) && ReachOf(clients) == PartsOf(parts, clients)
  {
    forall i | 0 <= i < |clients|
      ensures Ready(rules, clients[i]) && Reach(clients[i]) == parts[clients[i]]
    {
      assert Steady(rules, parts, clients[i]);
    }
    ReachesAre(parts, clients);
  }

  /** The same as a property of clients, for what does not depend on what it says. */
  ghost function SteadyOf(rules: Rules, parts: map<Client, set<object>>): Client ~> bool {
    (c: Client) reads Reach(c) => Steady(rules, parts, c)
  }

  /** The property holds of these clients, and depends on nothing in the rest. */
  ghost predicate HoldsBeside(p: Client ~> bool, clients: seq<Client>, rest: set<object>)
    reads *
  {
    forall i :: 0 <= i < |clients| ==> p.requires(clients[i]) && p.reads(clients[i]) !! rest && p(clients[i])
  }

  lemma SteadyBeside(rules: Rules, parts: map<Client, set<object>>, clients: seq<Client>, rest: set<object>,
                     some: set<object>)
    requires AllSteady(rules, parts, clients) && PartsApart(parts, clients, rest) && some <= rest
    ensures HoldsBeside(SteadyOf(rules, parts), clients, some)
  {
    var p := SteadyOf(rules, parts);
    forall i | 0 <= i < |clients|
      ensures p.requires(clients[i]) && p.reads(clients[i]) !! some && p(clients[i])
    {
      assert Steady(rules, parts, clients[i]);
    }
  }

  /** Before a step that changes no more than some of the rest. */
  lemma Aside(rules: Rules, parts: map<Client, set<object>>, clients: seq<Client>, rest: set<object>, some: set<object>)
    requires AllReady(rules, clients) && Disjoint(clients, rest) && parts == Parts(clients) && some <= rest
    ensures HoldsBeside(SteadyOf(rules, parts), clients, some) && PartsApart(parts, clients, rest)
    ensures ReachOf(clients) == PartsOf(parts, clients)
  {
    SteadyNow(rules, parts, clients, rest);
    SteadyBeside(rules, parts, clients, rest, some);
    ReachesAre(parts, clients);
  }

  /** After it. */
  lemma Unharmed(rules: Rules, parts: map<Client, set<object>>, clients: seq<Client>, rest: set<object>)
    requires forall i :: 0 <= i < |clients| ==>
      SteadyOf(rules, parts).requires(clients[i]) && SteadyOf(rules, parts)(clients[i])
    requires PartsApart(parts, clients, rest)
    ensures AllReady(rules, clients) && Disjoint(clients, rest) && ReachOf(clients) == PartsOf(parts, clients)
  {
    forall i | 0 <= i < |clients|
      ensures Steady(rules, parts, clients[i])
    {
      assert SteadyOf(rules, parts)(clients[i]);
    }
    SteadyThen(rules, parts, clients, rest);
  }

  // ---------- One client among others ----------

  /** All clients but the one at `i`. */
  function AllBut(clients: seq<Client>, i: nat): seq<Client>
    requires i < |clients|
  {
    clients[..i] + clients[i + 1..]
  }

  lemma OtherAt(clients: seq<Client>, i: nat, k: nat)
    requires i < |clients| && k < |clients| && k != i
    ensures var others, at := AllBut(clients, i), if k < i then k else k - 1;
            0 <= at < |others| && others[at] == clients[k]
  {
  }

  /** Each of the others was some client before. */
  lemma OtherWas(clients: seq<Client>, i: nat, k: nat)
    requires i < |clients| && k < |AllBut(clients, i)|
    ensures var at := if k < i then k else k + 1; at < |clients| && at != i && AllBut(clients, i)[k] == clients[at]
  {
  }

  /** The client at `i` is ready, and shares nothing with the others, of which everything is as it was. */
  lemma AmongOthers(rules: Rules, parts: map<Client, set<object>>, clients: seq<Client>, i: nat, rest: set<object>)
    requires i < |clients|
    requires forall k :: 0 <= k < |AllBut(clients, i)| ==>
      SteadyOf(rules, parts).requires(AllBut(clients, i)[k]) && SteadyOf(rules, parts)(AllBut(clients, i)[k])
    requires PartsApart(parts, AllBut(clients, i), rest)
    requires Ready(rules, clients[i]) && Reach(clients[i]) !! PartsOf(parts, AllBut(clients, i)) + rest
    ensures AllReady(rules, clients) && Disjoint(clients, rest)
  {
    var others := AllBut(clients, i);
    Unharmed(rules, parts, others, rest);
    forall k | 0 <= k < |clients| && k != i
      ensures Ready(rules, clients[k]) && Reach(clients[k]) !! Reach(clients[i])
      ensures Reach(clients[k]) !! rest
    {
      OtherAt(clients, i, k);
      var at := if k < i then k else k - 1;
      assert Ready(rules, others[at]);
      assert SteadyOf(rules, parts)(others[at]);
    }
    forall j, k | 0 <= j < k < |clients|
      ensures Reach(clients[j]) !! Reach(clients[k])
    {
      if j != i && k != i {
        OtherAt(clients, i, j);
        OtherAt(clients, i, k);
      }
    }
  }

  lemma ReachesHas(clients: seq<Client>, i: nat)
    requires i < |clients|
    ensures Reach(clients[i]) + ReachOf(AllBut(clients, i)) <= ReachOf(clients)
  {
    assert clients[i] in clients && forall c :: c in AllBut(clients, i) ==> c in clients;
  }

  lemma ReachesAmong(parts: map<Client, set<object>>, clients: seq<Client>, i: nat)
    requires i < |clients| && ReachOf(AllBut(clients, i)) == PartsOf(parts, AllBut(clients, i))
    ensures ReachOf(clients) <= PartsOf(parts, AllBut(clients, i)) + Reach(clients[i])
  {
    var others := AllBut(clients, i);
    forall c | c in clients
      ensures Reach(c) <= ReachOf(others) + Reach(clients[i])
    {
      var k :| 0 <= k < |clients| && clients[k] == c;
      if k != i {
        OtherAt(clients, i, k);
      }
    }
  }

  lemma ApartFromOne(parts: map<Client, set<object>>, clients: seq<Client>, i: nat, rest: set<object>)
    requires PartsApart(parts, clients, rest) && i < |clients|
    ensures PartsApart(parts, AllBut(clients, i), rest + parts[clients[i]])
    ensures parts[clients[i]] !! PartsOf(parts, AllBut(clients, i)) + rest
  {
    var others := AllBut(clients, i);
    forall k | 0 <= k < |others|
      ensures others[k] in parts && parts[others[k]] !! rest + parts[clients[i]]
    {
      OtherWas(clients, i, k);
    }
    forall j, k | 0 <= j < k < |others|
      ensures parts[others[j]] !! parts[others[k]]
    {
      OtherWas(clients, i, j);
      OtherWas(clients, i, k);
    }
  }

  lemma OthersSteady(rules: Rules, parts: map<Client, set<object>>, clients: seq<Client>, i: nat)
    requires AllSteady(rules, parts, clients) && i < |clients|
    ensures AllSteady(rules, parts, AllBut(clients, i))
    ensures clients[i] in parts && Reach(clients[i]) == parts[clients[i]]
  {
    var others := AllBut(clients, i);
    forall k | 0 <= k < |others|
      ensures Steady(rules, parts, others[k])
    {
      OtherWas(clients, i, k);
      assert Steady(rules, parts, clients[if k < i then k else k + 1]);
    }
    assert Steady(rules, parts, clients[i]);
  }

  lemma LessApart(parts: map<Client, set<object>>, clients: seq<Client>, rest: set<object>, more: set<object>)
    requires PartsApart(parts, clients, rest + more)
    ensures PartsApart(parts, clients, rest)
  {
  }

  /** Before a client's turn: the others have nothing to do with it. */
  lemma OthersAside(rules: Rules, parts: map<Client, set<object>>, clients: seq<Client>, i: nat, rest: set<object>)
    requires AllReady(rules, clients) && Disjoint(clients, rest) && parts == Parts(clients) && i < |clients|
    ensures HoldsBeside(SteadyOf(rules, parts), AllBut(clients, i), Reach(clients[i]))
    ensures PartsApart(parts, AllBut(clients, i), rest)
    ensures Reach(clients[i]) !! PartsOf(parts, AllBut(clients, i)) + rest
    ensures ReachOf(clients) == PartsOf(parts, AllBut(clients, i)) + Reach(clients[i])
  {
    SteadyNow(rules, parts, clients, rest);
    OthersSteady(rules, parts, clients, i);
    ApartFromOne(parts, clients, i, rest);
    var own := parts[clients[i]];
    SteadyBeside(rules, parts, AllBut(clients, i), rest + own, own);
    LessApart(parts, AllBut(clients, i), rest, own);
    ReachesAre(parts, AllBut(clients, i));
    ReachesAmong(parts, clients, i);
    ReachesHas(clients, i);
  }

  // ---------- Seats and channels ----------

  lemma OneInFeet(channels: seq<Channel>, data: Channel)
    requires data in channels
    ensures data in Feet(channels)
  {
    assert data in Foot(data);
  }

  /** The client at `i` has this channel now, or none. */
  function WithData(seats: seq<Seat>, i: nat, data: Channel?): (r: seq<Seat>)
    requires i < |seats|
    ensures |r| == |seats| && ClientsOf(r) == ClientsOf(seats)
  {
    assert ClientsOf(seats[i := Seat(seats[i].client, data)]) == ClientsOf(seats);
    seats[i := Seat(seats[i].client, data)]
  }

  /** All seats but the one at `i`. */
  function Without(seats: seq<Seat>, i: nat): (r: seq<Seat>)
    requires i < |seats|
    ensures ClientsOf(r) == AllBut(ClientsOf(seats), i)
  {
    assert ClientsOf(seats[..i] + seats[i + 1..]) == AllBut(ClientsOf(seats), i);
    seats[..i] + seats[i + 1..]
  }

  function DataOf(added: seq<Channel>): Channel? {
    if added == [] then null else added[0]
  }

  lemma HeldOpened(seats: seq<Seat>, channels: seq<Channel>, i: nat, added: seq<Channel>)
    requires Held(seats, channels) && i < |seats| && |added| <= 1
    requires forall c :: c in added ==> c !in channels && GetState(c.state) < DTP_FREE
    ensures Held(WithData(seats, i, DataOf(added)), channels + added)
  {
  }

  lemma ApartWithMore(parts: map<Client, set<object>>, clients: seq<Client>, channels: seq<Channel>,
                      added: seq<Channel>, rest: set<object>)
    requires PartsApart(parts, clients, Feet(channels) + rest)
    requires forall c :: c in added ==> Foot(c) !! PartsOf(parts, clients)
    ensures PartsApart(parts, clients, Feet(channels + added) + rest)
  {
    forall i | 0 <= i < |clients|
      ensures parts[clients[i]] !! Feet(channels + added) + rest
    {
      assert parts[clients[i]] <= PartsOf(parts, clients);
    }
  }

  lemma HeldMore(seats: seq<Seat>, channels: seq<Channel>, client: Client)
    requires Held(seats, channels)
    ensures Held(seats + [Seat(client, null)], channels)
    ensures ClientsOf(seats + [Seat(client, null)]) == ClientsOf(seats) + [client]
  {
  }

  /** The channels were held when their states were these. */
  ghost predicate HeldBefore(seats: seq<Seat>, channels: seq<Channel>, states: seq<bv8>) {
    && |states| == |channels|
    && (forall i :: 0 <= i < |seats| && seats[i].data != null ==> seats[i].data in channels)
    && (forall i, k :: 0 <= i < |seats| && 0 <= k < |channels| && seats[i].data == channels[k] ==>
          GetState(states[k]) < DTP_FREE)
    && forall i, j :: 0 <= i < j < |seats| && seats[i].data != null ==> seats[i].data != seats[j].data
  }

  /** Where none has been freed, clients still hold their channels. */
  lemma HeldStays(seats: seq<Seat>, channels: seq<Channel>, before: seq<bv8>)
    requires HeldBefore(seats, channels, before) && NoneFreed(before, States(channels))
    ensures Held(seats, channels)
  {
    forall i | 0 <= i < |seats| && seats[i].data != null
      ensures GetState(seats[i].data.state) < DTP_FREE
    {
      var k :| 0 <= k < |channels| && channels[k] == seats[i].data;
      assert GetState(before[k]) < DTP_FREE;
    }
  }

  lemma HeldThen(seats: seq<Seat>, channels: seq<Channel>)
    requires Held(seats, channels)
    ensures HeldBefore(seats, channels, States(channels))
  {
  }

  /** A client's channel, once its transfer is over, is dead and not yet free. */
  lemma DeadIsHeld(seats: seq<Seat>, channels: seq<Channel>, i: nat)
    requires Held(seats, channels) && i < |seats|
    ensures var data := seats[i].data;
            data != null && !TransferOf(data).Running? ==>
              data in channels && DTP_CLOSED <= GetState(data.state) < DTP_FREE
  {
  }

  /** The seats behind a turn: a client that has left has none, and one that has let go of a channel has no channel. */
  function Seated(seats: seq<Seat>, i: nat, left: bool, gone: Channel?): seq<Seat>
    requires i < |seats|
  {
    if left then Without(seats, i) else if gone == null then seats else WithData(seats, i, null)
  }

  lemma SeatedClients(seats: seq<Seat>, i: nat, left: bool, gone: Channel?)
    requires i < |seats|
    ensures ClientsOf(Seated(seats, i, left, gone)) == if left then AllBut(ClientsOf(seats), i) else ClientsOf(seats)
    ensures |Seated(seats, i, left, gone)| <= |seats|
  {
  }

  /** A client that has let go of this channel has none; the others' are held as before. */
  lemma HeldStill(seats: seq<Seat>, channels: seq<Channel>, states: seq<bv8>, i: nat, data: Channel?)
    requires i < |seats| && HeldBefore(seats, channels, states) && (data == null || data == seats[i].data)
    requires forall k :: 0 <= k < |channels| && channels[k] != data ==> channels[k].state == states[k]
    ensures Held(if data == null then seats else WithData(seats, i, null), channels)
    ensures Held(Without(seats, i), channels)
  {
    forall k | 0 <= k < |seats| && seats[k].data != null && seats[k].data != data
      ensures seats[k].data in channels && GetState(seats[k].data.state) < DTP_FREE
    {
      var at :| 0 <= at < |channels| && channels[at] == seats[k].data;
      assert channels[at] != data;
    }
    var left := Without(seats, i);
    assert forall k :: 0 <= k < |left| ==> left[k] == seats[if k < i then k else k + 1];
  }

  /** What holds when a client has had its turn, and what it lets go of has not been given up yet. */
  ghost predicate Settling(rules: Rules, lists: ChannelLists, seats: seq<Seat>, channels: seq<Channel>, i: nat,
                           left: bool, gone: Channel?, current: seq<Channel>, pending: seq<Channel>,
                           states: seq<bv8>)
    requires i < |seats|
    reads *
  {
    var clients := ClientsOf(Seated(seats, i, left, gone));
    && Holds(lists, channels, current, pending) && (forall c :: c in channels ==> c.Conserves())
    && States(channels) == states && HeldBefore(seats, channels, states) && |seats| <= MAX_CLIENTS
    && (gone != null ==>
          gone == seats[i].data && gone in channels && DTP_CLOSED <= GetState(gone.state) < DTP_FREE)
    && AllReady(rules, clients) && Disjoint(clients, Feet(channels) + {lists})
  }

  /** None of the lists and of what the channels consist of is in this set. */
  predicate Off(own: set<object>, lists: ChannelLists, channels: seq<Channel>) {
    && lists !in own
    && forall c :: c in channels ==> c !in own && c.buffer !in own && c.buffer.buffer !in own && c.wire !in own
  }

  lemma ApartIsOff(own: set<object>, lists: ChannelLists, channels: seq<Channel>)
    requires own !! Feet(channels) + {lists}
    ensures Off(own, lists, channels)
  {
    forall c | c in channels
      ensures c !in own && c.buffer !in own && c.buffer.buffer !in own && c.wire !in own
    {
      assert c in Foot(c) && c.buffer in Foot(c) && c.buffer.buffer in Foot(c) && c.wire in Foot(c);
    }
  }
}
