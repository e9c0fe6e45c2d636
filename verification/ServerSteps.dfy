/** The steps of a server: each touches one client, or the channels, and leaves everybody else alone. */
module ServerSteps {
  import opened Clients
  import opened ControlChannel
  import opened DataEvents
  import opened Dtp
  import opened DtpPoll
  import opened DtpRuns
  import opened Serving
  import opened Sessions
  import opened Turns
  import opened Seats

  // ---------- A poll ----------

  /** A poll does not touch the clients: whatever was so of them still is. */
  method PollBeside(ghost p: Client ~> bool, ghost clients: seq<Client>, ghost feet: set<object>, lists: ChannelLists,
                    answers: nat -> Accept, ghost channels: seq<Channel>, ghost current: seq<Channel>,
                    ghost pending: seq<Channel>, ghost before: seq<bv8>, ghost was: seq<Moment>)
    returns (ghost current': seq<Channel>)
    requires before == States(channels) && was == Moments(current)
    requires Holds(lists, channels, current, pending) && forall c :: c in channels ==> c.Conserves()
    requires HoldsBeside(p, clients, feet + {lists}) && Feet(channels) <= feet
    modifies lists, feet
    ensures Holds(lists, channels, current', []) && forall c :: c in channels ==> c.Conserves()
    ensures AllRaise(before, States(channels)) && NoneFreed(before, States(channels))
    ensures |was| == |current| && DtpPoll.Served(current, was, answers, |current|)
    ensures forall i :: 0 <= i < |clients| ==> p.requires(clients[i]) && p(clients[i])
  {
    current' := PollOnce(lists, answers, channels, current, pending);
  }

  /** Polls every channel. */
  method PollStep(ghost rules: Rules, lists: ChannelLists, answers: nat -> Accept, ghost seats: seq<Seat>,
                  ghost channels: seq<Channel>, ghost current: seq<Channel>, ghost pending: seq<Channel>)
    returns (ghost current': seq<Channel>)
    requires InOrder(rules, lists, seats, channels, current, pending)
    modifies lists, Feet(channels)
    ensures InOrder(rules, lists, seats, channels, current', [])
    ensures DtpPoll.Served(current, old(Moments(current)), answers, |current|)
    ensures AllRaise(old(States(channels)), States(channels))
    ensures ReachOf(ClientsOf(seats)) == old(ReachOf(ClientsOf(seats)))
  {
    ghost var clients, rest := ClientsOf(seats), Feet(channels) + {lists};
    ghost var parts, before, was := Parts(clients), States(channels), Moments(current);
    Aside(rules, parts, clients, rest, rest);
    HeldThen(seats, channels);
    current' := PollBeside(SteadyOf(rules, parts), clients, Feet(channels), lists, answers, channels, current, pending,
      before, was);
    HeldStays(seats, channels, before);
    Unharmed(rules, parts, clients, rest);
  }

  // ---------- A file to send ----------

  /** Giving a channel a file does not touch what does not depend on it. */
  method SendBeside(ghost p: Client ~> bool, ghost clients: seq<Client>, lists: ChannelLists,
                    ghost channels: seq<Channel>, data: Channel, fd: int,
                    ghost current: seq<Channel>, ghost pending: seq<Channel>)
    requires Holds(lists, channels, current, pending) && forall c :: c in channels ==> c.Conserves()
    requires data in channels
    requires HoldsBeside(p, clients, {data})
    modifies data`localFd, data`state
    ensures Holds(lists, channels, current, pending) && forall c :: c in channels ==> c.Conserves()
    ensures AllRaise(old(States(channels)), States(channels))
    ensures forall c :: c in channels ==> GetState(c.state) == old(GetState(c.state))
    ensures Sends(old(data.localFd), data.localFd, fd, data.state)
    ensures forall i :: 0 <= i < |clients| ==> p.requires(clients[i]) && p(clients[i])
  {
    SendOnce(lists, channels, data, fd, current, pending);
  }

  /** Gives a client's channel a file to send. */
  method SendStep(ghost rules: Rules, lists: ChannelLists, ghost seats: seq<Seat>, ghost channels: seq<Channel>,
                  data: Channel, fd: int, ghost current: seq<Channel>, ghost pending: seq<Channel>)
    requires InOrder(rules, lists, seats, channels, current, pending) && data in channels
    modifies data`localFd, data`state
    ensures InOrder(rules, lists, seats, channels, current, pending)
    ensures AllRaise(old(States(channels)), States(channels))
    ensures ReachOf(ClientsOf(seats)) == old(ReachOf(ClientsOf(seats)))
    ensures Sends(old(data.localFd), data.localFd, fd, data.state)
  {
    ghost var clients, rest := ClientsOf(seats), Feet(channels) + {lists};
    ghost var parts := Parts(clients);
    OneInFeet(channels, data);
    Aside(rules, parts, clients, rest, {data});
    SendBeside(SteadyOf(rules, parts), clients, lists, channels, data, fd, current, pending);
    Unharmed(rules, parts, clients, rest);
  }

  // ---------- A new channel ----------

  /** A new channel shares nothing with anything there was. */
  method OpenApart(lists: ChannelLists, ghost channels: seq<Channel>, ip: nat, passive: bool, source: string,
                   prompt: bool, ghost current: seq<Channel>, ghost pending: seq<Channel>, ghost things: set<object>)
    returns (added: seq<Channel>)
    requires Holds(lists, channels, current, pending) && forall c :: c in channels ==> c.Conserves()
    modifies lists`nextList
    ensures |added| <= 1 && (added != [] ==> fresh(Foot(added[0])))
    ensures Opened(added, ip, passive, source, prompt)
    ensures Holds(lists, channels + added, current, added + pending)
    ensures forall c :: c in channels + added ==> c.Conserves()
    ensures AllRaise(old(States(channels)), States(channels + added))
    ensures forall c :: c in added ==> c !in channels && GetState(c.state) < DTP_FREE && Foot(c) !! things
  {
    added := OpenJoined(lists, channels, ip, passive, source, prompt, current, pending);
    assert added != [] ==> added[0] in Foot(added[0]);
  }

  /** It is the client's own. */
  method OpenHeld(lists: ChannelLists, ghost seats: seq<Seat>, ghost channels: seq<Channel>, ghost i: nat, ip: nat,
                  passive: bool, source: string, prompt: bool, ghost current: seq<Channel>,
                  ghost pending: seq<Channel>, ghost things: set<object>)
    returns (added: seq<Channel>)
    requires Holds(lists, channels, current, pending) && forall c :: c in channels ==> c.Conserves()
    requires Held(seats, channels) && i < |seats|
    modifies lists`nextList
    ensures |added| <= 1 && (added != [] ==> fresh(Foot(added[0])))
    ensures Opened(added, ip, passive, source, prompt)
    ensures Holds(lists, channels + added, current, added + pending)
    ensures forall c :: c in channels + added ==> c.Conserves()
    ensures AllRaise(old(States(channels)), States(channels + added))
    ensures Held(WithData(seats, i, DataOf(added)), channels + added)
    ensures forall c :: c in added ==> Foot(c) !! things
  {
    added := OpenApart(lists, channels, ip, passive, source, prompt, current, pending, things);
    HeldOpened(seats, channels, i, added);
  }

  /** Opening a channel does not touch what depends on anything but the lists' heads. */
  method OpenBeside(ghost p: Client ~> bool, ghost clients: seq<Client>, lists: ChannelLists, ghost seats: seq<Seat>,
                    ghost channels: seq<Channel>, ghost i: nat, ip: nat, passive: bool, source: string, prompt: bool,
                    ghost current: seq<Channel>, ghost pending: seq<Channel>, ghost things: set<object>)
    returns (added: seq<Channel>)
    requires Holds(lists, channels, current, pending) && forall c :: c in channels ==> c.Conserves()
    requires Held(seats, channels) && i < |seats| && HoldsBeside(p, clients, {lists})
    modifies lists`nextList
    ensures |added| <= 1 && (added != [] ==> fresh(Foot(added[0])))
    ensures Opened(added, ip, passive, source, prompt)
    ensures Holds(lists, channels + added, current, added + pending)
    ensures forall c :: c in channels + added ==> c.Conserves()
    ensures AllRaise(old(States(channels)), States(channels + added))
    ensures Held(WithData(seats, i, DataOf(added)), channels + added)
    ensures forall c :: c in added ==> Foot(c) !! things
    ensures forall i :: 0 <= i < |clients| ==> p.requires(clients[i]) && p(clients[i])
  {
    added := OpenHeld(lists, seats, channels, i, ip, passive, source, prompt, current, pending, things);
  }

  /** Opens a channel for a client, in the place of the one it may have. */
  method OpenStep(ghost rules: Rules, lists: ChannelLists, seats: seq<Seat>, ghost channels: seq<Channel>, i: nat,
                  ip: nat, passive: bool, source: string, prompt: bool, ghost current: seq<Channel>,
                  ghost pending: seq<Channel>)
    returns (seats': seq<Seat>, added: seq<Channel>)
    requires InOrder(rules, lists, seats, channels, current, pending) && i < |seats|
    modifies lists`nextList
    ensures |added| <= 1 && (added != [] ==> fresh(Foot(added[0])))
    ensures Opened(added, ip, passive, source, prompt)
    ensures seats' == WithData(seats, i, DataOf(added))
    ensures InOrder(rules, lists, seats', channels + added, current, added + pending)
    ensures AllRaise(old(States(channels)), States(channels + added))
    ensures ReachOf(ClientsOf(seats')) == old(ReachOf(ClientsOf(seats)))
  {
    ghost var clients, rest := ClientsOf(seats), Feet(channels) + {lists};
    ghost var parts := Parts(clients);
    Aside(rules, parts, clients, rest, {lists});
    added := OpenBeside(SteadyOf(rules, parts), clients, lists, seats, channels, i, ip, passive, source, prompt,
      current, pending, PartsOf(parts, clients));
    seats' := WithData(seats, i, DataOf(added));
    ApartWithMore(parts, clients, channels, added, {lists});
    Unharmed(rules, parts, clients, Feet(channels + added) + {lists});
  }

  // ---------- A client comes ----------

  method AcceptReady(ghost rules: Rules, pathMax: nat) returns (client: Client)
    requires pathMax >= 2 && Follows(rules, pathMax)
    ensures Ready(rules, client) && fresh(Reach(client))
  {
    ghost var given;
    client, given := Turns.Accept(rules, pathMax);
    assert fresh(OwnParts(client));
    IsReady(rules, client, given);
  }

  /** Nobody is touched when a client is accepted, and its parts are its own. */
  method AcceptBeside(ghost p: Client ~> bool, ghost clients: seq<Client>, ghost rules: Rules, pathMax: nat,
                      ghost things: set<object>)
    returns (client: Client)
    requires pathMax >= 2 && Follows(rules, pathMax) && HoldsBeside(p, clients, {})
    ensures Ready(rules, client) && fresh(Reach(client)) && Reach(client) !! things
    ensures forall i :: 0 <= i < |clients| ==> p.requires(clients[i]) && p(clients[i])
  {
    client := AcceptReady(rules, pathMax);
  }

  /** A client of its own joins the others. */
  method Join(ghost rules: Rules, ghost clients: seq<Client>, pathMax: nat, ghost rest: set<object>)
    returns (client: Client)
    requires AllReady(rules, clients) && Disjoint(clients, rest) && pathMax >= 2 && Follows(rules, pathMax)
    ensures AllReady(rules, clients + [client]) && Disjoint(clients + [client], rest) && fresh(Reach(client))
    ensures ReachOf(clients + [client]) <= old(ReachOf(clients)) + Reach(client)
  {
    ghost var parts := Parts(clients);
    Aside(rules, parts, clients, rest, {});
    client := AcceptBeside(SteadyOf(rules, parts), clients, rules, pathMax, PartsOf(parts, clients) + rest);
    assert AllBut(clients + [client], |clients|) == clients;
    AmongOthers(rules, parts, clients + [client], |clients|, rest);
    Unharmed(rules, parts, clients, rest);
    ReachesAmong(parts, clients + [client], |clients|);
  }

  /** A client connects, if there is a seat for it. */
  method ConnectStep(ghost rules: Rules, ghost lists: ChannelLists, seats: seq<Seat>, ghost channels: seq<Channel>,
                     pathMax: nat, ghost current: seq<Channel>, ghost pending: seq<Channel>)
    returns (client: Client)
    requires InOrder(rules, lists, seats, channels, current, pending) && |seats| < MAX_CLIENTS
    requires pathMax >= 2 && Follows(rules, pathMax)
    ensures InOrder(rules, lists, seats + [Seat(client, null)], channels, current, pending) && fresh(Reach(client))
    ensures ReachOf(ClientsOf(seats + [Seat(client, null)])) <= old(ReachOf(ClientsOf(seats))) + Reach(client)
    ensures States(channels) == old(States(channels))
  {
    client := Join(rules, ClientsOf(seats), pathMax, Feet(channels) + {lists});
    HeldMore(seats, channels, client);
  }

  // ---------- A client takes its turn ----------

  /** A client's turn touches nothing but what it consists of. */
  method TurnOf(ghost own: set<object>, ghost rules: Rules, client: Client, transfer: Transfer, arrival: Arrival,
                wording: nat -> string)
    returns (outcome: Turn, over: bool)
    requires Ready(rules, client) && Plain(wording) && (arrival.Bytes? ==> arrival.data != "")
    requires Reach(client) <= own
    modifies own
    ensures outcome.Stays? ==> Ready(rules, client) && fresh(Reach(client) - own)
    ensures over <==> old(client.state) & STATE_DATA != 0 && !transfer.Running?
    ensures TurnDid(outcome, old(client.received), client.received, Listens(old(client.state), transfer), arrival,
                    old(client.input.Remaining()), client.log)
  {
    ghost var given :| Waiting(client, given);
    var sent;
    outcome, over, sent := HandleClient(rules, client, transfer, arrival, wording, given);
    if outcome.Stays? {
      IsReady(rules, client, []);
    }
  }

  /** The channels have no part in a client's turn. */
  method TurnOverChannels(ghost own: set<object>, ghost rules: Rules, client: Client, transfer: Transfer,
                          arrival: Arrival, wording: nat -> string, ghost lists: ChannelLists,
                          ghost channels: seq<Channel>, ghost current: seq<Channel>, ghost pending: seq<Channel>)
    returns (outcome: Turn, over: bool)
    requires Ready(rules, client) && Plain(wording) && (arrival.Bytes? ==> arrival.data != "")
    requires Holds(lists, channels, current, pending) && forall c :: c in channels ==> c.Conserves()
    requires Reach(client) <= own && Off(own, lists, channels)
    modifies own
    ensures outcome.Stays? ==> Ready(rules, client) && fresh(Reach(client) - own)
    ensures over <==> old(client.state) & STATE_DATA != 0 && !transfer.Running?
    ensures TurnDid(outcome, old(client.received), client.received, Listens(old(client.state), transfer), arrival,
                    old(client.input.Remaining()), client.log)
    ensures Holds(lists, channels, current, pending) && forall c :: c in channels ==> c.Conserves()
    ensures States(channels) == old(States(channels))
  {
    outcome, over := TurnOf(own, rules, client, transfer, arrival, wording);
  }

  /** Whatever is so of the other clients still is; what is apart from the client stays so. */
  method TurnBeside(ghost p: Client ~> bool, ghost others: seq<Client>, ghost own: set<object>, ghost rules: Rules,
                    client: Client, transfer: Transfer, arrival: Arrival, wording: nat -> string,
                    ghost lists: ChannelLists, ghost channels: seq<Channel>, ghost current: seq<Channel>,
                    ghost pending: seq<Channel>, ghost things: set<object>)
    returns (outcome: Turn, over: bool)
    requires Ready(rules, client) && Plain(wording) && (arrival.Bytes? ==> arrival.data != "")
    requires Holds(lists, channels, current, pending) && forall c :: c in channels ==> c.Conserves()
    requires Reach(client) <= own && Off(own, lists, channels) && own !! things && HoldsBeside(p, others, own)
    modifies own
    ensures outcome.Stays? ==> Ready(rules, client) && fresh(Reach(client) - own) && Reach(client) !! things
    ensures over <==> old(client.state) & STATE_DATA != 0 && !transfer.Running?
    ensures TurnDid(outcome, old(client.received), client.received, Listens(old(client.state), transfer), arrival,
                    old(client.input.Remaining()), client.log)
    ensures Holds(lists, channels, current, pending) && forall c :: c in channels ==> c.Conserves()
    ensures States(channels) == old(States(channels))
    ensures forall i :: 0 <= i < |others| ==> p.requires(others[i]) && p(others[i])
  {
    outcome, over :=
      TurnOverChannels(own, rules, client, transfer, arrival, wording, lists, channels, current, pending);
  }

  /** One client takes its turn; it and the others are ready again, or the others if it has left. */
  method TurnAmong(ghost rules: Rules, clients: seq<Client>, i: nat, transfer: Transfer, arrival: Arrival,
                   wording: nat -> string, ghost lists: ChannelLists, ghost channels: seq<Channel>,
                   ghost current: seq<Channel>, ghost pending: seq<Channel>)
    returns (outcome: Turn, over: bool)
    requires AllReady(rules, clients) && Disjoint(clients, Feet(channels) + {lists}) && i < |clients|
    requires Plain(wording) && (arrival.Bytes? ==> arrival.data != "")
    requires Holds(lists, channels, current, pending) && forall c :: c in channels ==> c.Conserves()
    modifies Reach(clients[i])
    ensures outcome.Stays? ==> AllReady(rules, clients) && Disjoint(clients, Feet(channels) + {lists})
    ensures outcome.Stays? ==> fresh(ReachOf(clients) - old(ReachOf(clients)))
    ensures outcome.Left? ==>
      AllReady(rules, AllBut(clients, i)) && Disjoint(AllBut(clients, i), Feet(channels) + {lists})
    ensures outcome.Left? ==> ReachOf(AllBut(clients, i)) <= old(ReachOf(clients))
    ensures over <==> old(clients[i].state) & STATE_DATA != 0 && !transfer.Running?
    ensures TurnDid(outcome, old(clients[i].received), clients[i].received,
                    Listens(old(clients[i].state), transfer), arrival, old(clients[i].input.Remaining()),
                    clients[i].log)
    ensures Holds(lists, channels, current, pending) && forall c :: c in channels ==> c.Conserves()
    ensures States(channels) == old(States(channels))
  {
    ghost var parts, others, rest := Parts(clients), AllBut(clients, i), Feet(channels) + {lists};
    OthersAside(rules, parts, clients, i, rest);
    assert Ready(rules, clients[i]);
    ApartIsOff(Reach(clients[i]), lists, channels);
    outcome, over := TurnBeside(SteadyOf(rules, parts), others, Reach(clients[i]), rules, clients[i], transfer, arrival,
      wording, lists, channels, current, pending, PartsOf(parts, others) + rest);
    if outcome.Stays? {
      AmongOthers(rules, parts, clients, i, rest);
      Unharmed(rules, parts, others, rest);
      ReachesAmong(parts, clients, i);
    } else if outcome.Left? {
      Unharmed(rules, parts, others, rest);
    }
  }

  /** A client's letting go of its channel touches nobody either. */
  method LetGoBeside(ghost p: Client ~> bool, ghost clients: seq<Client>, lists: ChannelLists,
                     ghost channels: seq<Channel>, data: Channel, ghost current: seq<Channel>,
                     ghost pending: seq<Channel>)
    requires Holds(lists, channels, current, pending) && forall c :: c in channels ==> c.Conserves()
    requires data in channels && DTP_CLOSED <= GetState(data.state) < DTP_FREE
    requires HoldsBeside(p, clients, {data})
    modifies data`state
    ensures Holds(lists, channels, current, pending) && forall c :: c in channels ==> c.Conserves()
    ensures AllRaise(old(States(channels)), States(channels))
    ensures forall c :: c in channels && c != data ==> c.state == old(c.state)
    ensures forall i :: 0 <= i < |clients| ==> p.requires(clients[i]) && p(clients[i])
  {
    LetGoOnce(lists, channels, data, current, pending);
  }

  /** The channel that a client lets go of is marked to be freed. */
  method LetGoStep(ghost rules: Rules, lists: ChannelLists, ghost clients: seq<Client>, ghost channels: seq<Channel>,
                   data: Channel, ghost current: seq<Channel>, ghost pending: seq<Channel>)
    requires Holds(lists, channels, current, pending) && forall c :: c in channels ==> c.Conserves()
    requires data in channels && DTP_CLOSED <= GetState(data.state) < DTP_FREE
    requires AllReady(rules, clients) && Disjoint(clients, Feet(channels) + {lists})
    modifies data`state
    ensures Holds(lists, channels, current, pending) && forall c :: c in channels ==> c.Conserves()
    ensures AllRaise(old(States(channels)), States(channels))
    ensures forall c :: c in channels && c != data ==> c.state == old(c.state)
    ensures AllReady(rules, clients) && Disjoint(clients, Feet(channels) + {lists})
    ensures ReachOf(clients) == old(ReachOf(clients))
  {
    ghost var parts, rest := Parts(clients), Feet(channels) + {lists};
    OneInFeet(channels, data);
    Aside(rules, parts, clients, rest, {data});
    LetGoBeside(SteadyOf(rules, parts), clients, lists, channels, data, current, pending);
    Unharmed(rules, parts, clients, rest);
  }

  /** Behind a turn, a client whose transfer is over lets go of its channel, and one that has left of its seat. */
  method Settle(ghost rules: Rules, lists: ChannelLists, ghost seats: seq<Seat>, ghost channels: seq<Channel>,
                ghost i: nat, ghost left: bool, gone: Channel?, ghost current: seq<Channel>,
                ghost pending: seq<Channel>, ghost states: seq<bv8>)
    requires i < |seats| && Settling(rules, lists, seats, channels, i, left, gone, current, pending, states)
    modifies AsSet(gone)`state
    ensures InOrder(rules, lists, Seated(seats, i, left, gone), channels, current, pending)
    ensures AllRaise(states, States(channels))
    ensures var clients := ClientsOf(Seated(seats, i, left, gone)); ReachOf(clients) == old(ReachOf(clients))
  {
    ghost var seats' := Seated(seats, i, left, gone);
    SeatedClients(seats, i, left, gone);
    if gone == null {
      SameRaise(states);
    } else {
      LetGoStep(rules, lists, ClientsOf(seats'), channels, gone, current, pending);
    }
    HeldStill(seats, channels, states, i, gone);
  }

  /** A client takes its turn, except for what it lets go of. */
  method Speak(ghost rules: Rules, ghost lists: ChannelLists, seats: seq<Seat>, ghost channels: seq<Channel>, i: nat,
               arrival: Arrival, wording: nat -> string, ghost current: seq<Channel>, ghost pending: seq<Channel>)
    returns (outcome: Turn, gone: Channel?)
    requires InOrder(rules, lists, seats, channels, current, pending) && i < |seats|
    requires Plain(wording) && (arrival.Bytes? ==> arrival.data != "")
    modifies Reach(seats[i].client)
    ensures outcome.Stays? || outcome.Left? ==>
              Settling(rules, lists, seats, channels, i, outcome.Left?, gone, current, pending, old(States(channels)))
    ensures outcome.Stays? || outcome.Left? ==>
              fresh(ReachOf(ClientsOf(Seated(seats, i, outcome.Left?, gone))) - old(ReachOf(ClientsOf(seats))))
    ensures var client, transfer := seats[i].client, old(TransferOf(seats[i].data));
            && TurnDid(outcome, old(client.received), client.received, Listens(old(client.state), transfer), arrival,
                       old(client.input.Remaining()), client.log)
            && gone == if old(client.state) & STATE_DATA != 0 && !transfer.Running? then seats[i].data else null
  {
    var data := seats[i].data;
    var transfer := TransferOf(data);
    HeldThen(seats, channels);
    DeadIsHeld(seats, channels, i);
    var over;
    outcome, over :=
      TurnAmong(rules, ClientsOf(seats), i, transfer, arrival, wording, lists, channels, current, pending);
    gone := if over then data else null;
    SeatedClients(seats, i, outcome.Left?, gone);
  }

  /** A client takes its turn; if its transfer is over, it has no channel any more, and if it has left, no seat. */
  method TurnStep(ghost rules: Rules, lists: ChannelLists, seats: seq<Seat>, ghost channels: seq<Channel>, i: nat,
                  arrival: Arrival, wording: nat -> string, ghost current: seq<Channel>, ghost pending: seq<Channel>)
    returns (outcome: Turn, gone: Channel?)
    requires InOrder(rules, lists, seats, channels, current, pending) && i < |seats|
    requires Plain(wording) && (arrival.Bytes? ==> arrival.data != "")
    modifies Reach(seats[i].client), AsSet(seats[i].data)`state
    ensures outcome.Stays? || outcome.Left? ==>
              InOrder(rules, lists, Seated(seats, i, outcome.Left?, gone), channels, current, pending)
    ensures outcome.Stays? || outcome.Left? ==>
              fresh(ReachOf(ClientsOf(Seated(seats, i, outcome.Left?, gone))) - old(ReachOf(ClientsOf(seats))))
    ensures var client, transfer := seats[i].client, old(TransferOf(seats[i].data));
            && TurnDid(outcome, old(client.received), client.received, Listens(old(client.state), transfer), arrival,
                       old(client.input.Remaining()), client.log)
            && gone == if old(client.state) & STATE_DATA != 0 && !transfer.Running? then seats[i].data else null
    ensures outcome.Stays? || outcome.Left? ==> AllRaise(old(States(channels)), States(channels))
  {
    ghost var states := States(channels);
    outcome, gone := Speak(rules, lists, seats, channels, i, arrival, wording, current, pending);
    if outcome.Stays? || outcome.Left? {
      Settle(rules, lists, seats, channels, i, outcome.Left?, gone, current, pending, states);
    }
  }
}
