/** The end of a transfer, as the client's control connection is told about it. */
module DataEvents {
  import opened Clients
  import opened Dtp
  import opened Framing
  import opened Serving
  import opened Sessions

  lemma TracedOver(rules: Rules, st: Session, log: seq<Event>, channel: bool, closed: bool, pathMax: nat)
    requires Follows(rules, pathMax) && Traced(rules, st, log)
    ensures Traced(rules, AfterTransfer(st, channel, closed), log + [TransferOver(channel, closed)])
  {
    var e := TransferOver(channel, closed);
    assert (log + [e])[..|log|] == log;
    assert Apply(st, e, pathMax) == AfterTransfer(st, channel, closed);
  }

  lemma FramedOver(rules: Rules, received: string, contents: string, log: seq<Event>, e: Event)
    requires Framed(rules, received, contents, log) && e.TransferOver?
    ensures Framed(rules, received, contents, log + [e])
  {
    FilterMapStep(log, e, AsRequest);
    assert Asked(log) + [] == Asked(log);
  }

  /** Ends the transfer state, with a reply if there was a channel. */
  method EndTransfer(ghost rules: Rules, client: Client, channel: bool, closed: bool)
    requires Follows(rules, client.pathMax) && InSync(rules, client)
    modifies client`state, client`replies, client`log
    ensures InSync(rules, client) && client.Session() == AfterTransfer(old(client.Session()), channel, closed)
    ensures client.log == old(client.log) + [TransferOver(channel, closed)]
  {
    TracedOver(rules, client.Session(), client.log, channel, closed, client.pathMax);
    FramedOver(rules, client.received, client.input.Contents(), client.log, TransferOver(channel, closed));
    client.EndTransfer(channel, closed);
  }

  /** What has become of a client's transfer: it has no channel, or one that is still at work, or a dead one. */
  datatype Transfer = NoChannel | Running | Dead(closed: bool)

  function TransferOf(data: Channel?): Transfer
    reads data
  {
    if data == null then NoChannel
    else if GetState(data.state) >= DTP_CLOSED then Dead(GetState(data.state) == DTP_CLOSED)
    else Running
  }

  /** The state codes from 4 on are those of dead channels, and 4 is that of a complete transfer. */
  lemma TransferIs(data: Channel?)
    ensures TransferOf(data).NoChannel? <==> data == null
    ensures data != null ==> (TransferOf(data).Running? <==> data.state & 15 < 4)
    ensures data != null ==> (TransferOf(data) == Dead(true) <==> data.state & 15 == 4)
  {
  }

  /** In the transfer state of a client, a transfer that is not running is over, and is reported if it was one. */
  method ReportTransfer(ghost rules: Rules, client: Client, transfer: Transfer) returns (over: bool)
    requires Follows(rules, client.pathMax) && InSync(rules, client)
    modifies client`state, client`replies, client`log
    ensures InSync(rules, client) && old(client.log) <= client.log
    ensures over <==> old(client.state) & STATE_DATA != 0 && !transfer.Running?
    ensures client.Session() ==
      if over then AfterTransfer(old(client.Session()), transfer.Dead?, transfer.Dead? && transfer.closed)
      else old(client.Session())
  {
    over := client.state & STATE_DATA != 0 && !transfer.Running?;
    if over {
      EndTransfer(rules, client, transfer.Dead?, transfer.Dead? && transfer.closed);
    }
  }

  /**
   * While a transfer is in progress, looks whether its channel is dead. A complete transfer is reported only
   * when everything has been delivered, and the channel is then left to be freed by the next poll.
   */
  method HandleDataEvents(ghost rules: Rules, client: Client, data: Channel?) returns (data': Channel?)
    requires Follows(rules, client.pathMax) && InSync(rules, client) && (data != null ==> data.Conserves())
    modifies client`state, client`replies, client`log, AsSet(data)`state
    ensures InSync(rules, client) && old(client.log) <= client.log
    ensures var transfer := old(TransferOf(data));
            if old(client.state) & STATE_DATA == 0 || transfer.Running? then
              data' == data && client.Session() == old(client.Session()) &&
              (data != null ==> data.state == old(data.state))
            else
              data' == null && (data != null ==> data.state == SetState(old(data.state), DTP_FREE)) &&
              client.Session() ==
                AfterTransfer(old(client.Session()), data != null,
                              data != null && old(GetState(data.state)) == DTP_CLOSED)
    ensures data != null && old(data.state) & 15 == 4 ==> data.wire.written == data.wire.source
  {
    data' := data;
    var over := ReportTransfer(rules, client, TransferOf(data));
    if over {
      LetGo(data);
      data' := null;
    }
  }
}
