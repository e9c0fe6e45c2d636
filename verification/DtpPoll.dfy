/** Polling the data channels: two lists linked through the channels themselves. */
module DtpPoll {
  import opened Dtp
  import opened IoBuffers
  import opened Wrappers

  // ---------- Lists of channels ----------

  function ChannelAt(cs: seq<Channel>, i: nat): Channel? {
    if i < |cs| then cs[i] else null
  }

  /** `head` starts a list of exactly these channels, in this order, none of them released. */
  ghost predicate Chain(head: Channel?, cs: seq<Channel>)
    reads cs
  {
    && head == ChannelAt(cs, 0) && Distinct(cs)
    && (forall i {:trigger cs[i].next} :: 0 <= i < |cs| ==> cs[i].next == ChannelAt(cs, i + 1))
    && (forall i {:trigger cs[i].freed} :: 0 <= i < |cs| ==> !cs[i].freed)
  }

  lemma ChainTail(head: Channel, cs: seq<Channel>)
    requires Chain(head, cs)
    ensures cs != [] && cs[0] == head && Chain(head.next, cs[1..]) && head !in cs[1..]
  {
    var tail := cs[1..];
    forall i | 0 <= i < |tail|
      ensures tail[i].next == ChannelAt(tail, i + 1) && !tail[i].freed
    {
      assert tail[i] == cs[i + 1] && ChannelAt(tail, i + 1) == ChannelAt(cs, i + 2);
    }
  }

  /** Everything a channel's transfer consists of; the parts never change owner. */
  function Foot(c: Channel): set<object> {
    {c, c.buffer, c.buffer.buffer, c.wire}
  }

  /** No two channels share a part. */
  predicate Separate(cs: seq<Channel>) {
    forall i, j :: 0 <= i < j < |cs| ==> Foot(cs[i]) !! Foot(cs[j])
  }

  ghost function Feet(cs: seq<Channel>): set<object> {
    set c, o | c in cs && o in Foot(c) :: o
  }

  function States(cs: seq<Channel>): (r: seq<bv8>)
    reads cs
    ensures |r| == |cs| && forall i :: 0 <= i < |r| ==> r[i] == cs[i].state
  {
    if cs == [] then [] else States(cs[..|cs| - 1]) + [cs[|cs| - 1].state]
  }

  ghost function Moments(cs: seq<Channel>): (r: seq<Moment>)
    reads cs, set c | c in cs :: c.buffer, set c | c in cs :: c.wire
    ensures |r| == |cs| && forall i :: 0 <= i < |r| ==> r[i] == MomentOf(cs[i])
  {
    if cs == [] then [] else Moments(cs[..|cs| - 1]) + [MomentOf(cs[|cs| - 1])]
  }

  /** The channels that were not free, last first. */
  function Requeued(cs: seq<Channel>, was: seq<Moment>): seq<Channel>
    requires |was| == |cs|
  {
    if cs == [] then []
    else
      var last := |cs| - 1;
      (if GetState(was[last].state) == DTP_FREE then [] else [cs[last]]) + Requeued(cs[..last], was[..last])
  }

  // ---------- Dispatch ----------

  /** What a listening socket answers: a connection, nothing yet, or a failure. */
  datatype Accept = Accepted(fd: nat) | NotYet | Refused

  /** The channel has been told to receive or to send. */
  predicate Directed(state: bv8) {
    state & 0x60 != 0
  }

  /**
   * What one step makes of a channel, by its state and, if it waits for a connection, by what its socket answers. A
   * connection makes it forget the direction it was given before; once connected, it starts in the one it is given.
   */
  predicate Steps(before: Moment, after: Moment, answer: Accept) {
    var code, next := GetState(before.state), GetState(after.state);
    if code == DTP_PENDING && before.passive && answer.Accepted? then
      next == DTP_ESTABLISHED && !Directed(after.state) && after == before.(state := after.state, remote := answer.fd)
    else if code == DTP_PENDING && before.passive && answer.Refused? then
      next == DTP_ERROR && after == before.(state := after.state)
    else if code == DTP_ESTABLISHED && Directed(before.state) then
      after == before.(state := after.state) &&
      next == if before.state & DTP_RECV != 0 then DTP_RECVING else DTP_SENDING
    else if code == DTP_SENDING || code == DTP_RECVING then Advances(before, after)
    else after == before
  }

  /** What a poll makes of a channel: one step, or it is given back if it was free. */
  predicate Polled(before: Moment, after: Moment, answer: Accept) {
    if GetState(before.state) == DTP_FREE then after == before.(local := -1, remote := -1)
    else Steps(before, after, answer)
  }

  lemma StepsFree(before: Moment, after: Moment, answer: Accept)
    requires Steps(before, after, answer)
    ensures GetState(after.state) == DTP_FREE <==> GetState(before.state) == DTP_FREE
    ensures GetState(before.state) == DTP_FREE ==> after == before
  {
  }

  /** No poll lowers a state, so a dead channel never comes back to life, and none becomes free by itself. */
  lemma PolledRaise(before: Moment, after: Moment, answer: Accept)
    requires Polled(before, after, answer)
    ensures GetState(before.state) <= GetState(after.state)
    ensures GetState(before.state) >= DTP_CLOSED ==> after.state == before.state
    ensures GetState(after.state) == DTP_FREE <==> GetState(before.state) == DTP_FREE
  {
  }

  /** Looks for a connection to a listening channel; other channels wait. */
  method TryAccept(channel: Channel, answer: Accept)
    requires channel.Conserves() && GetState(channel.state) == DTP_PENDING
    modifies channel`state, channel`remoteFd, channel`listenFd
    ensures channel.Conserves()
    ensures channel.passive && answer.Accepted? ==>
              GetState(channel.state) == DTP_ESTABLISHED && channel.remoteFd == answer.fd && channel.listenFd == -1
    ensures channel.passive && answer.Refused? ==> GetState(channel.state) == DTP_ERROR
    ensures Steps(old(MomentOf(channel)), MomentOf(channel), answer)
    ensures !channel.passive || answer.NotYet? ==> channel.state == old(channel.state)
    ensures !channel.passive || !answer.Accepted? ==>
              channel.remoteFd == old(channel.remoteFd) && channel.listenFd == old(channel.listenFd)
  {
    if !channel.passive {
      return;
    }
    match answer {
      case Refused =>
        channel.state := SetState(channel.state, DTP_ERROR);
      case NotYet =>
      case Accepted(fd) =>
        channel.listenFd := -1;
        channel.remoteFd := fd;
        channel.state := SetState(channel.state, DTP_ESTABLISHED);
    }
  }

  /** Starts the transfer once its direction is known; setting the state forgets the direction. */
  method CheckReady(channel: Channel)
    requires channel.Conserves() && GetState(channel.state) == DTP_ESTABLISHED
    modifies channel`state
    ensures channel.Conserves()
    ensures GetState(channel.state) ==
            if old(channel.state) & DTP_RECV != 0 then DTP_RECVING
            else if old(channel.state) & DTP_XMIT != 0 then DTP_SENDING
            else DTP_ESTABLISHED
    ensures forall answer :: Steps(old(MomentOf(channel)), MomentOf(channel), answer)
  {
    if channel.state & DTP_RECV != 0 {
      channel.state := SetState(channel.state, DTP_RECVING);
    }
    if channel.state & DTP_XMIT != 0 {
      channel.state := SetState(channel.state, DTP_SENDING);
    }
  }

  /** One step of a channel, by its state; a free channel is left alone. */
  method Dispatch(channel: Channel, answer: Accept)
    requires channel.Conserves()
    modifies channel, channel.buffer`head, channel.buffer.buffer, channel.wire
    ensures channel.Conserves() && channel.next == old(channel.next) && channel.freed == old(channel.freed)
    ensures Steps(old(MomentOf(channel)), MomentOf(channel), answer)
  {
    var code := GetState(channel.state);
    if code == DTP_PENDING {
      TryAccept(channel, answer);
    } else if code == DTP_ESTABLISHED {
      CheckReady(channel);
    } else if code == DTP_SENDING {
      SendData(channel);
    } else if code == DTP_RECVING {
      ReceiveData(channel);
    }
  }

  /** Gives a channel back. */
  method FreeChannel(channel: Channel)
    requires !channel.freed
    modifies channel`next, channel`localFd, channel`remoteFd, channel`listenFd, channel`freed
    ensures channel.freed && channel.localFd == -1 && channel.remoteFd == -1
  {
    channel.next := null;
    channel.localFd, channel.remoteFd, channel.listenFd := -1, -1, -1;
    channel.freed := true;
  }

  // ---------- Polling ----------

  /** The channels that are being served, and those that wait for the next poll. */
  class ChannelLists {
    var list: Channel?
    var nextList: Channel?
    /** The channels that were served, in order. */
    ghost var served: seq<Channel>

    constructor ()
      ensures list == null && nextList == null && served == []
    {
      list, nextList, served := null, null, [];
    }
  }

  /** Putting a channel in front of a list. */
  method Push(channel: Channel, head: Channel?, ghost cs: seq<Channel>)
    requires Chain(head, cs) && channel !in cs && !channel.freed
    modifies channel`next
    ensures Chain(channel, [channel] + cs)
  {
    channel.next := head;
    ghost var all := [channel] + cs;
    assert forall i :: 0 < i < |all| ==> all[i] == cs[i - 1];
  }

  /** A channel's step leaves the others as they are. */
  method DispatchAlone(channel: Channel, answer: Accept, ghost others: seq<Channel>)
    requires channel.Conserves() && Bystanders(others, channel) && forall c :: c in others ==> c.Conserves()
    modifies channel, channel.buffer`head, channel.buffer.buffer, channel.wire
    ensures channel.Conserves() && channel.next == old(channel.next) && channel.freed == old(channel.freed)
    ensures Steps(old(MomentOf(channel)), MomentOf(channel), answer)
    ensures forall c :: c in others ==> c.Conserves() && MomentOf(c) == old(MomentOf(c)) && c.freed == old(c.freed)
  {
    Dispatch(channel, answer);
    assert forall c :: c in others ==> channel in Foot(channel) && c in Foot(c);
  }

  /** Unlinks the first channel of the list. */
  method TakeHead(lists: ChannelLists, ghost rest: seq<Channel>) returns (dtp: Channel)
    requires rest != [] && Chain(lists.list, rest)
    modifies lists`list, lists.list`next
    ensures dtp == rest[0] && dtp.next == null && Chain(lists.list, rest[1..])
  {
    dtp := lists.list;
    ChainTail(dtp, rest);
    lists.list := dtp.next;
    dtp.next := null;
  }

  /** Gives a free channel back, and puts any other in front of the next list. */
  method Requeue(lists: ChannelLists, dtp: Channel, ghost queue: seq<Channel>)
    requires Chain(lists.nextList, queue) && dtp !in queue && !dtp.freed && dtp.Conserves()
    modifies lists`nextList, dtp`next, dtp`localFd, dtp`remoteFd, dtp`listenFd, dtp`freed
    ensures Chain(lists.nextList, if GetState(dtp.state) == DTP_FREE then queue else [dtp] + queue)
    ensures dtp.Conserves() && (dtp.freed <==> GetState(dtp.state) == DTP_FREE)
    ensures MomentOf(dtp) == if GetState(dtp.state) == DTP_FREE then old(MomentOf(dtp)).(local := -1, remote := -1)
                             else old(MomentOf(dtp))
  {
    if GetState(dtp.state) == DTP_FREE {
      FreeChannel(dtp);
    } else {
      Push(dtp, lists.nextList, queue);
      lists.nextList := dtp;
    }
  }

  /** The channels that a step of `channel` must leave alone. */
  ghost predicate Bystanders(others: seq<Channel>, channel: Channel) {
    forall c :: c in others ==> Foot(c) !! Foot(channel)
  }

  lemma OthersDiffer(channel: Channel, others: seq<Channel>)
    requires Bystanders(others, channel)
    ensures channel !in others
  {
    assert channel in Foot(channel);
  }

  /** Takes the first channel off the list and serves it. */
  method ServeHead(lists: ChannelLists, answer: Accept, ghost rest: seq<Channel>, ghost queue: seq<Channel>,
                   ghost others: seq<Channel>)
    returns (dtp: Channel)
    requires rest != [] && Chain(lists.list, rest) && Chain(lists.nextList, queue) && rest[0].Conserves()
    requires Bystanders(others, rest[0]) && forall c :: c in others ==> c.Conserves()
    requires (forall c :: c in rest[1..] ==> c in others) && (forall c :: c in queue ==> c in others)
    modifies lists`list, rest[0], rest[0].buffer`head, rest[0].buffer.buffer, rest[0].wire
    ensures dtp == rest[0] && Chain(lists.list, rest[1..]) && Chain(lists.nextList, queue)
    ensures dtp.Conserves() && !dtp.freed && Steps(old(MomentOf(rest[0])), MomentOf(dtp), answer)
    ensures forall c :: c in others ==> c.Conserves() && MomentOf(c) == old(MomentOf(c)) && c.freed == old(c.freed)
  {
    OthersDiffer(rest[0], others);
    dtp := TakeHead(lists, rest);
    DispatchAlone(dtp, answer, others);
  }

  /** Requeueing a channel leaves the others as they are. */
  method RequeueAlone(lists: ChannelLists, dtp: Channel, ghost rest: seq<Channel>, ghost queue: seq<Channel>,
                      ghost others: seq<Channel>)
    requires Chain(lists.list, rest) && Chain(lists.nextList, queue) && !dtp.freed && dtp.Conserves()
    requires Bystanders(others, dtp) && forall c :: c in others ==> c.Conserves()
    requires (forall c :: c in rest ==> c in others) && (forall c :: c in queue ==> c in others)
    modifies lists, dtp`next, dtp`localFd, dtp`remoteFd, dtp`listenFd, dtp`freed
    ensures Chain(lists.list, rest)
    ensures Chain(lists.nextList, if GetState(dtp.state) == DTP_FREE then queue else [dtp] + queue)
    ensures dtp.Conserves() && (dtp.freed <==> GetState(dtp.state) == DTP_FREE)
    ensures MomentOf(dtp) == if GetState(dtp.state) == DTP_FREE then old(MomentOf(dtp)).(local := -1, remote := -1)
                             else old(MomentOf(dtp))
    ensures forall c :: c in others ==> c.Conserves() && MomentOf(c) == old(MomentOf(c)) && c.freed == old(c.freed)
    ensures lists.served == old(lists.served) + [dtp]
  {
    OthersDiffer(dtp, others);
    lists.served := lists.served + [dtp];
    Requeue(lists, dtp, queue);
  }

  /** Serves the first channel of the list; unless it is free, it goes in front of the next list. */
  method PollHead(lists: ChannelLists, answer: Accept, ghost rest: seq<Channel>, ghost queue: seq<Channel>,
                  ghost others: seq<Channel>)
    requires rest != [] && Chain(lists.list, rest) && Chain(lists.nextList, queue) && rest[0].Conserves()
    requires Bystanders(others, rest[0]) && forall c :: c in others ==> c.Conserves()
    requires (forall c :: c in rest[1..] ==> c in others) && (forall c :: c in queue ==> c in others)
    modifies lists, rest[0], rest[0].buffer`head, rest[0].buffer.buffer, rest[0].wire
    ensures Chain(lists.list, rest[1..])
    ensures Chain(lists.nextList, if GetState(old(rest[0].state)) == DTP_FREE then queue else [rest[0]] + queue)
    ensures rest[0].Conserves() && Polled(old(MomentOf(rest[0])), MomentOf(rest[0]), answer)
    ensures rest[0].freed <==> GetState(old(rest[0].state)) == DTP_FREE
    ensures forall c :: c in others ==> c.Conserves() && MomentOf(c) == old(MomentOf(c)) && c.freed == old(c.freed)
    ensures lists.served == old(lists.served) + [rest[0]]
  {
    ghost var before := MomentOf(rest[0]);
    var dtp := ServeHead(lists, answer, rest, queue, others);
    StepsFree(before, MomentOf(dtp), answer);
    RequeueAlone(lists, dtp, rest[1..], queue, others);
  }

  // ---------- A whole poll ----------

  /** All channels but the one at `i`. */
  function Others(current: seq<Channel>, pending: seq<Channel>, i: nat): seq<Channel>
    requires i < |current|
  {
    current[..i] + current[i + 1..] + pending
  }

  lemma OthersAreBystanders(current: seq<Channel>, pending: seq<Channel>, i: nat)
    requires Separate(current + pending) && i < |current|
    ensures Bystanders(Others(current, pending, i), current[i])
  {
    var all, others := current + pending, Others(current, pending, i);
    forall k | 0 <= k < |others|
      ensures Foot(others[k]) !! Foot(current[i])
    {
      assert others[k] == all[if k < i then k else k + 1] && all[i] == current[i];
    }
  }

  lemma {:induction false} RequeuedMembers(cs: seq<Channel>, was: seq<Moment>)
    requires |was| == |cs|
    ensures forall c :: c in Requeued(cs, was) ==> c in cs
  {
    if cs != [] {
      RequeuedMembers(cs[..|cs| - 1], was[..|cs| - 1]);
    }
  }

  /** The next list once the first `i` channels have been served. */
  function Queue(current: seq<Channel>, pending: seq<Channel>, was: seq<Moment>, i: nat): seq<Channel>
    requires i <= |current| == |was|
  {
    Requeued(current[..i], was[..i]) + pending
  }

  lemma QueueStep(current: seq<Channel>, pending: seq<Channel>, was: seq<Moment>, i: nat)
    requires i < |current| == |was|
    ensures var queue := Queue(current, pending, was, i);
            Queue(current, pending, was, i + 1) ==
            if GetState(was[i].state) == DTP_FREE then queue else [current[i]] + queue
    ensures forall c :: c in current[i..][1..] ==> c in Others(current, pending, i)
    ensures forall c :: c in Queue(current, pending, was, i) ==> c in Others(current, pending, i)
  {
    assert current[..i + 1][..i] == current[..i] && was[..i + 1][..i] == was[..i];
    assert current[i..][1..] == current[i + 1..];
    RequeuedMembers(current[..i], was[..i]);
    var before := Requeued(current[..i], was[..i]);
    assert [current[i]] + before + pending == [current[i]] + (before + pending);
    assert [] + before == before;
  }

  /** What has become of the channels that were served, and that the others are as they were. */
  ghost predicate Served(current: seq<Channel>, was: seq<Moment>, answers: nat -> Accept, i: nat)
    requires i <= |current| == |was|
    reads current, set c | c in current :: c.buffer, set c | c in current :: c.wire
  {
    forall k {:trigger MomentOf(current[k])} {:trigger was[k]} :: 0 <= k < |current| ==>
      if k < i then
        Polled(was[k], MomentOf(current[k]), answers(k)) && (current[k].freed <==> GetState(was[k].state) == DTP_FREE)
      else MomentOf(current[k]) == was[k]
  }

  /** The polling loop has served the first `i` channels. */
  ghost predicate Polling(lists: ChannelLists, current: seq<Channel>, queue: seq<Channel>, was: seq<Moment>,
                          answers: nat -> Accept, i: nat)
    requires i <= |current| == |was|
    reads lists, queue, current, set c | c in current :: c.buffer, set c | c in current :: c.wire
  {
    Chain(lists.list, current[i..]) && Chain(lists.nextList, queue) && Served(current, was, answers, i)
  }

  lemma OthersHold(current: seq<Channel>, pending: seq<Channel>, i: nat)
    requires i < |current|
    ensures forall k :: 0 <= k < |current| && k != i ==> current[k] in Others(current, pending, i)
    ensures forall c :: c in current + pending ==> c == current[i] || c in Others(current, pending, i)
    ensures forall c :: c in Others(current, pending, i) ==> c in current + pending
  {
    assert current + pending == current[..i] + [current[i]] + current[i + 1..] + pending;
    forall k | 0 <= k < |current| && k != i
      ensures current[k] in Others(current, pending, i)
    {
      if k < i {
        assert current[..i][k] == current[k];
      } else {
        assert current[i + 1..][k - i - 1] == current[k];
      }
    }
  }

  /** Serves the channel at `i`, and leaves all others alone. */
  method PollAt(lists: ChannelLists, answer: Accept, ghost current: seq<Channel>, ghost pending: seq<Channel>,
                ghost was: seq<Moment>, ghost i: nat)
    requires i < |current| == |was| && Separate(current + pending) && MomentOf(current[i]) == was[i]
    requires Chain(lists.list, current[i..]) && Chain(lists.nextList, Queue(current, pending, was, i))
    requires current[i].Conserves() && forall c :: c in Others(current, pending, i) ==> c.Conserves()
    modifies lists, Feet(current)
    ensures Chain(lists.list, current[i + 1..]) && Chain(lists.nextList, Queue(current, pending, was, i + 1))
    ensures current[i].Conserves() && Polled(was[i], MomentOf(current[i]), answer)
    ensures current[i].freed <==> GetState(was[i].state) == DTP_FREE
    ensures forall c :: c in Others(current, pending, i) ==>
      c.Conserves() && MomentOf(c) == old(MomentOf(c)) && c.freed == old(c.freed)
    ensures lists.served == old(lists.served) + [current[i]]
  {
    OthersAreBystanders(current, pending, i);
    QueueStep(current, pending, was, i);
    assert Foot(current[i]) <= Feet(current);
    PollHead(lists, answer, current[i..], Queue(current, pending, was, i), Others(current, pending, i));
    assert current[i..][1..] == current[i + 1..];
  }

  /** One pass of the polling loop. */
  method PollNext(lists: ChannelLists, answers: nat -> Accept, ghost current: seq<Channel>,
                  ghost pending: seq<Channel>, ghost was: seq<Moment>, i: nat)
    requires i < |current| == |was| && Separate(current + pending)
    requires Polling(lists, current, Queue(current, pending, was, i), was, answers, i)
    requires forall c :: c in current + pending ==> c.Conserves()
    modifies lists, Feet(current)
    ensures Polling(lists, current, Queue(current, pending, was, i + 1), was, answers, i + 1)
    ensures forall c :: c in current + pending ==> c.Conserves()
    ensures forall c :: c in pending ==> MomentOf(c) == old(MomentOf(c))
    ensures lists.served == old(lists.served) + [current[i]]
  {
    OthersHold(current, pending, i);
    PollAt(lists, answers(i), current, pending, was, i);
  }

  /** The polling loop. */
  method PollAll(lists: ChannelLists, answers: nat -> Accept, ghost current: seq<Channel>, ghost pending: seq<Channel>,
                 ghost was: seq<Moment>)
    returns (count: nat)
    requires |current| == |was| && Separate(current + pending) && Polling(lists, current, pending, was, answers, 0)
    requires forall c :: c in current + pending ==> c.Conserves()
    modifies lists, Feet(current)
    ensures count == |current|
    ensures Polling(lists, current, Queue(current, pending, was, |current|), was, answers, |current|)
    ensures forall c :: c in current + pending ==> c.Conserves()
    ensures forall c :: c in pending ==> MomentOf(c) == old(MomentOf(c))
    ensures lists.served == old(lists.served) + current
  {
    count := 0;
    ghost var served := lists.served;
    assert Queue(current, pending, was, 0) == pending && served + current[..0] == served;
    while lists.list != null
      invariant count <= |current|
      invariant Polling(lists, current, Queue(current, pending, was, count), was, answers, count)
      invariant forall c :: c in current + pending ==> c.Conserves()
      invariant forall c :: c in pending ==> MomentOf(c) == old(MomentOf(c))
      invariant lists.served == served + current[..count]
      decreases |current| - count
    {
      PollNext(lists, answers, current, pending, was, count);
      ServedMore(served, current, count);
      count := count + 1;
    }
    assert current[..count] == current;
  }

  lemma ServedMore(served: seq<Channel>, current: seq<Channel>, i: nat)
    requires i < |current|
    ensures served + current[..i] + [current[i]] == served + current[..i + 1]
  {
  }

  lemma QueueEnds(current: seq<Channel>, pending: seq<Channel>, was: seq<Moment>)
    requires |was| == |current|
    ensures Queue(current, pending, was, |current|) == Requeued(current, was) + pending
  {
    assert current[..|current|] == current && was[..|current|] == was;
  }

  /** Polls every channel of the list; what is left of them is in front of those that were waiting. */
  method PollList(lists: ChannelLists, answers: nat -> Accept, ghost current: seq<Channel>,
                  ghost pending: seq<Channel>, ghost was: seq<Moment>)
    returns (count: nat)
    requires Chain(lists.list, current) && Chain(lists.nextList, pending) && Separate(current + pending)
    requires was == Moments(current) && forall c :: c in current + pending ==> c.Conserves()
    modifies lists, Feet(current)
    ensures Chain(lists.nextList, Requeued(current, was) + pending) && count == |current|
    ensures Served(current, was, answers, |current|)
    ensures forall c :: c in current + pending ==> c.Conserves()
    ensures forall c :: c in pending ==> MomentOf(c) == old(MomentOf(c))
    ensures lists.served == old(lists.served) + current
  {
    assert current[0..] == current;
    count := PollAll(lists, answers, current, pending, was);
    QueueEnds(current, pending, was);
  }

  /** What was requeued is the list to be polled next. */
  method NextRound(lists: ChannelLists, ghost next: seq<Channel>)
    requires Chain(lists.nextList, next)
    modifies lists`list, lists`nextList
    ensures Chain(lists.list, next) && lists.nextList == null
  {
    lists.list := lists.nextList;
    lists.nextList := null;
  }

  /** Polls every channel of the list, and turns to the next one. */
  method PollAround(lists: ChannelLists, answers: nat -> Accept, ghost current: seq<Channel>,
                    ghost pending: seq<Channel>, ghost was: seq<Moment>)
    returns (count: nat)
    requires Chain(lists.list, current) && Chain(lists.nextList, pending) && Separate(current + pending)
    requires was == Moments(current) && forall c :: c in current + pending ==> c.Conserves()
    modifies lists, Feet(current)
    ensures Chain(lists.list, Requeued(current, was) + pending) && lists.nextList == null && count == |current|
    ensures Served(current, was, answers, |current|)
    ensures forall c :: c in current + pending ==> c.Conserves()
    ensures forall c :: c in pending ==> MomentOf(c) == old(MomentOf(c))
    ensures lists.served == old(lists.served) + current
  {
    count := PollList(lists, answers, current, pending, was);
    NextRound(lists, Requeued(current, was) + pending);
  }

  /**
   * Polls every channel of the list exactly once. Each takes the step that is due in its state, so that a transfer
   * moves on or ends; the channels that wait are left as they are. The next list is what is left of the others, last
   * first, followed by those that were waiting; nothing is lost or duplicated, and every transfer still conserves its
   * bytes.
   */
  method Poll(lists: ChannelLists, answers: nat -> Accept, ghost current: seq<Channel>, ghost pending: seq<Channel>)
    returns (ghost current': seq<Channel>, count: nat)
    requires Chain(lists.list, current) && Chain(lists.nextList, pending) && Separate(current + pending)
    requires forall c :: c in current + pending ==> c.Conserves()
    modifies lists, Feet(current)
    ensures Chain(lists.list, current') && lists.nextList == null && count == |current|
    ensures current' == Requeued(current, old(Moments(current))) + pending
    ensures Served(current, old(Moments(current)), answers, |current|)
    ensures forall c :: c in current + pending ==> c.Conserves()
    ensures forall c :: c in pending ==> MomentOf(c) == old(MomentOf(c))
    ensures lists.served == old(lists.served) + current
  {
    ghost var was := Moments(current);
    current' := Requeued(current, was) + pending;
    count := PollAround(lists, answers, current, pending, was);
  }

  lemma RequeuedStep(cs: seq<Channel>, was: seq<Moment>, last: nat)
    requires |was| == |cs| == last + 1 && cs[last] !in cs[..last]
    ensures var before := Requeued(cs[..last], was[..last]);
            && (Distinct(before) ==> Distinct(Requeued(cs, was)))
            && (cs[last] in Requeued(cs, was) <==> GetState(was[last].state) != DTP_FREE)
            && (forall c :: c != cs[last] ==> (c in Requeued(cs, was) <==> c in before))
  {
    RequeuedMembers(cs[..last], was[..last]);
  }

  /** Each channel that was not free is in the next list exactly once, and no other channel of the old list is. */
  lemma {:induction false} RequeuedIsPermutation(cs: seq<Channel>, was: seq<Moment>)
    requires |was| == |cs| && Distinct(cs)
    ensures Distinct(Requeued(cs, was))
    ensures forall k :: 0 <= k < |cs| ==> (cs[k] in Requeued(cs, was) <==> GetState(was[k].state) != DTP_FREE)
  {
    if cs != [] {
      var last: nat := |cs| - 1;
      RequeuedIsPermutation(cs[..last], was[..last]);
      RequeuedStep(cs, was, last);
      forall k | 0 <= k < last
        ensures cs[k] in Requeued(cs, was) <==> GetState(was[k].state) != DTP_FREE
      {
        assert cs[..last][k] == cs[k] && was[..last][k] == was[k] && cs[k] != cs[last];
      }
    }
  }

  // ---------- New channels ----------

  /** A new channel waits for the next poll; there is none for a client without an address. */
  method NewDataChannel(lists: ChannelLists, ip: nat, passive: bool, wire: Wire, ghost pending: seq<Channel>)
    returns (channel: Channel?)
    requires Chain(lists.nextList, pending) && wire.written == "" && wire.unread == wire.source
    modifies lists`nextList
    ensures channel == null <==> ip == 0
    ensures channel == null ==> lists.nextList == old(lists.nextList)
    ensures channel != null ==> fresh(channel) && channel.Conserves() && channel.wire == wire && fresh(channel.buffer)
    ensures channel != null ==> fresh(channel.buffer.buffer) && fresh(channel.buffer.line)
    ensures channel != null ==> channel.state == DTP_PENDING && channel.passive == passive
    ensures channel != null ==> channel.buffer.size == 192064
    ensures channel != null ==> Chain(lists.nextList, [channel] + pending)
  {
    if ip == 0 {
      return null;
    }
    var buffer := new IoBuffer(192000);
    channel := new Channel(passive, buffer, wire);
    assert wire.written + "" + wire.unread == wire.source;
    Push(channel, lists.nextList, pending);
    lists.nextList := channel;
  }

  /** Gives a channel a file to send; only the first one is taken. */
  method SendFile(channel: Channel, fd: int) returns (ok: bool)
    requires channel.Conserves()
    modifies channel`localFd, channel`state
    ensures ok <==> old(channel.localFd) == -1
    ensures channel.localFd == if ok then fd else old(channel.localFd)
    ensures GetState(channel.state) == old(GetState(channel.state)) && channel.Conserves()
    ensures ok ==> channel.state & DTP_XMIT != 0 && channel.state & DTP_LOCAL_BUF == 0
  {
    if channel.localFd != -1 {
      return false;
    }
    channel.localFd := fd;
    SendFlags(channel.state);
    channel.state := channel.state & !DTP_LOCAL_BUF;
    channel.state := channel.state | DTP_XMIT;
    ok := true;
  }

  lemma SendFlags(state: bv8)
    ensures var s := (state & !DTP_LOCAL_BUF) | DTP_XMIT;
            GetState(s) == GetState(state) && s & DTP_XMIT != 0 && s & DTP_LOCAL_BUF == 0
  {
  }
}
