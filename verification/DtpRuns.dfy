/** What may happen to the data channels: polls, new channels, files to send. */
module DtpRuns {
  import opened Dtp
  import opened DtpPoll
  import opened Wrappers

  // ---------- What a run keeps ----------

  /** A state code never falls, and a dead channel can only become free. */
  predicate Raises(before: bv8, after: bv8) {
    var code, next := GetState(before), GetState(after);
    code <= next && (code >= DTP_CLOSED ==> next == code || next == DTP_FREE)
  }

  /** So it is for all the channels there were; others may have been added. */
  predicate AllRaise(before: seq<bv8>, after: seq<bv8>) {
    |before| <= |after| && forall i :: 0 <= i < |before| ==> Raises(before[i], after[i])
  }

  /** A channel that is not free stays so. */
  predicate NoneFreed(before: seq<bv8>, after: seq<bv8>) {
    && |before| <= |after|
    && forall i :: 0 <= i < |before| && GetState(before[i]) < DTP_FREE ==> GetState(after[i]) < DTP_FREE
  }

  lemma RaisesTransitive(a: bv8, b: bv8, c: bv8)
    requires Raises(a, b) && Raises(b, c)
    ensures Raises(a, c)
  {
  }

  lemma AllRaiseTransitive(a: seq<bv8>, b: seq<bv8>, c: seq<bv8>)
    requires AllRaise(a, b) && AllRaise(b, c)
    ensures AllRaise(a, c)
  {
    forall i | 0 <= i < |a|
      ensures Raises(a[i], c[i])
    {
      RaisesTransitive(a[i], b[i], c[i]);
    }
  }

  lemma PolledRaises(before: Moment, after: Moment, answer: Accept)
    requires Polled(before, after, answer)
    ensures Raises(before.state, after.state)
    ensures GetState(before.state) < DTP_FREE ==> GetState(after.state) < DTP_FREE
  {
    PolledRaise(before, after, answer);
  }

  /** A channel is in one of the lists, or has been given back after it was free. */
  ghost predicate Accounted(channels: seq<Channel>, listed: seq<Channel>)
    reads channels
  {
    && (forall c :: c in listed ==> c in channels)
    && forall c :: c in channels ==> c in listed || (c.freed && GetState(c.state) == DTP_FREE)
  }

  /** What holds between two steps: `current` is the list to be polled, `pending` those that wait. */
  ghost predicate Holds(lists: ChannelLists, channels: seq<Channel>, current: seq<Channel>, pending: seq<Channel>)
    reads lists, current, pending, channels
  {
    && Chain(lists.list, current) && Chain(lists.nextList, pending) && Distinct(current + pending)
    && Separate(channels) && Accounted(channels, current + pending)
  }

  lemma SubSeparate(channels: seq<Channel>, cs: seq<Channel>)
    requires Separate(channels) && Distinct(cs) && forall c :: c in cs ==> c in channels
    ensures Separate(cs)
  {
    forall i, j | 0 <= i < j < |cs|
      ensures Foot(cs[i]) !! Foot(cs[j])
    {
      assert cs[i] in cs && cs[j] in cs;
      TwoApart(channels, cs[i], cs[j]);
    }
  }

  lemma TwoApart(channels: seq<Channel>, c: Channel, d: Channel)
    requires Separate(channels) && c in channels && d in channels && c != d
    ensures Foot(c) !! Foot(d)
  {
    var i :| 0 <= i < |channels| && channels[i] == c;
    var j :| 0 <= j < |channels| && channels[j] == d;
    assert i < j ==> Foot(channels[i]) !! Foot(channels[j]);
    assert j < i ==> Foot(channels[j]) !! Foot(channels[i]);
  }

  /** What a poll may change touches no channel that is not polled. */
  lemma StrangersApart(channels: seq<Channel>, current: seq<Channel>, c: Channel)
    requires Separate(channels) && c in channels && c !in current && forall d :: d in current ==> d in channels
    ensures Foot(c) !! Feet(current)
  {
    forall d | d in current
      ensures Foot(c) !! Foot(d)
    {
      TwoApart(channels, c, d);
    }
  }

  lemma FeetWithin(channels: seq<Channel>, current: seq<Channel>)
    requires forall d :: d in current ==> d in channels
    ensures Feet(current) <= Feet(channels)
  {
  }

  // ---------- A poll ----------

  /** A poll leaves the channels that are in neither list alone. */
  method PollLeaving(lists: ChannelLists, answers: nat -> Accept, ghost current: seq<Channel>,
                     ghost pending: seq<Channel>, ghost strangers: set<Channel>)
    returns (ghost current': seq<Channel>)
    requires Chain(lists.list, current) && Chain(lists.nextList, pending) && Separate(current + pending)
    requires forall c :: c in current + pending ==> c.Conserves()
    requires forall c :: c in strangers ==> Foot(c) !! Feet(current) && c.Conserves()
    modifies lists, Feet(current)
    ensures Chain(lists.list, current') && lists.nextList == null
    ensures current' == Requeued(current, old(Moments(current))) + pending
    ensures DtpPoll.Served(current, old(Moments(current)), answers, |current|)
    ensures forall c :: c in current + pending || c in strangers ==> c.Conserves()
    ensures forall c :: c in pending || c in strangers ==> MomentOf(c) == old(MomentOf(c))
    ensures forall c :: c in strangers ==> c.freed == old(c.freed)
  {
    assert forall c :: c in strangers ==> c in Foot(c);
    var count;
    current', count := Poll(lists, answers, current, pending);
  }

  /** The states of the same channels, read off two lists. */
  ghost predicate Agree(channels: seq<Channel>, before: seq<bv8>, current: seq<Channel>, was: seq<Moment>) {
    && |before| == |channels| && |was| == |current|
    && forall i, k :: 0 <= i < |channels| && 0 <= k < |current| && channels[i] == current[k] ==>
         before[i] == was[k].state
  }

  lemma AfterPoll(channels: seq<Channel>, before: seq<bv8>, current: seq<Channel>, pending: seq<Channel>,
                  was: seq<Moment>, answers: nat -> Accept)
    requires Agree(channels, before, current, was) && Distinct(current + pending)
    requires DtpPoll.Served(current, was, answers, |current|)
    requires forall i :: 0 <= i < |channels| && channels[i] !in current ==> channels[i].state == before[i]
    ensures AllRaise(before, States(channels)) && NoneFreed(before, States(channels))
  {
    forall i | 0 <= i < |channels|
      ensures Raises(before[i], channels[i].state)
      ensures GetState(before[i]) < DTP_FREE ==> GetState(channels[i].state) < DTP_FREE
    {
      if channels[i] in current {
        var k :| 0 <= k < |current| && current[k] == channels[i];
        PolledRaises(was[k], MomentOf(current[k]), answers(k));
      }
    }
  }

  /** A channel that was polled is in the next list, or has been given back. */
  lemma PolledIsThere(current: seq<Channel>, was: seq<Moment>, answers: nat -> Accept, c: Channel)
    requires |was| == |current| && Distinct(current) && DtpPoll.Served(current, was, answers, |current|) && c in current
    ensures c in Requeued(current, was) || (c.freed && GetState(c.state) == DTP_FREE)
  {
    var k :| 0 <= k < |current| && current[k] == c;
    RequeuedIsPermutation(current, was);
    PolledRaise(was[k], MomentOf(current[k]), answers(k));
  }

  /** The next list holds what is left, and what is not there has been given back. */
  lemma StillAccounted(channels: seq<Channel>, current: seq<Channel>, pending: seq<Channel>, was: seq<Moment>,
                       answers: nat -> Accept)
    requires |was| == |current| && Distinct(current + pending)
    requires DtpPoll.Served(current, was, answers, |current|)
    requires forall c :: c in current + pending ==> c in channels
    requires forall c :: c in channels ==> c in current + pending || (c.freed && GetState(c.state) == DTP_FREE)
    ensures Accounted(channels, Requeued(current, was) + pending)
  {
    PartsDistinct(current, pending);
    RequeuedMembers(current, was);
    forall c | c in channels
      ensures c in Requeued(current, was) + pending || (c.freed && GetState(c.state) == DTP_FREE)
    {
      if c in current {
        PolledIsThere(current, was, answers, c);
      }
    }
  }

  lemma StillDistinct(current: seq<Channel>, pending: seq<Channel>, was: seq<Moment>)
    requires |was| == |current| && Distinct(current + pending)
    ensures Distinct(Requeued(current, was) + pending)
  {
    PartsDistinct(current, pending);
    RequeuedIsPermutation(current, was);
    RequeuedMembers(current, was);
    DistinctConcat(Requeued(current, was), pending);
  }

  lemma PartsDistinct(a: seq<Channel>, b: seq<Channel>)
    requires Distinct(a + b)
    ensures Distinct(a) && Distinct(b) && forall c :: c in a ==> c !in b
  {
    var both := a + b;
    assert forall i :: 0 <= i < |a| ==> a[i] == both[i];
    assert forall j :: 0 <= j < |b| ==> b[j] == both[|a| + j];
    forall i, j | 0 <= i < |a| && 0 <= j < |b|
      ensures a[i] != b[j]
    {
      assert both[i] != both[|a| + j];
    }
  }

  lemma DistinctConcat(a: seq<Channel>, b: seq<Channel>)
    requires Distinct(a) && Distinct(b) && forall c :: c in a ==> c !in b
    ensures Distinct(a + b)
  {
    var both := a + b;
    forall i, j | 0 <= i < j < |both|
      ensures both[i] != both[j]
    {
      if j < |a| {
        assert a[i] != a[j];
      } else if i >= |a| {
        assert b[i - |a|] != b[j - |a|];
      } else {
        assert a[i] in a && b[j - |a|] in b;
      }
    }
  }

  /** What a poll may touch, and what it may not. */
  lemma BeforePoll(channels: seq<Channel>, current: seq<Channel>, pending: seq<Channel>, strangers: set<Channel>)
    requires Separate(channels) && Distinct(current + pending) && forall c :: c in current + pending ==> c in channels
    requires forall c :: c in strangers ==> c in channels && c !in current
    ensures Separate(current + pending) && Feet(current) <= Feet(channels)
    ensures forall c :: c in strangers ==> Foot(c) !! Feet(current)
  {
    SubSeparate(channels, current + pending);
    FeetWithin(channels, current);
    forall c | c in strangers
      ensures Foot(c) !! Feet(current)
    {
      StrangersApart(channels, current, c);
    }
  }

  /** What a poll comes to. */
  lemma PollHolds(lists: ChannelLists, channels: seq<Channel>, before: seq<bv8>, current: seq<Channel>,
                  pending: seq<Channel>, was: seq<Moment>, answers: nat -> Accept)
    requires Agree(channels, before, current, was) && Distinct(current + pending)
    requires DtpPoll.Served(current, was, answers, |current|) && Separate(channels)
    requires forall i :: 0 <= i < |channels| && channels[i] !in current ==> channels[i].state == before[i]
    requires Chain(lists.list, Requeued(current, was) + pending) && lists.nextList == null
    requires forall c :: c in current + pending ==> c in channels
    requires forall c :: c in channels ==> c in current + pending || (c.freed && GetState(c.state) == DTP_FREE)
    ensures Holds(lists, channels, Requeued(current, was) + pending, [])
    ensures AllRaise(before, States(channels)) && NoneFreed(before, States(channels))
  {
    AfterPoll(channels, before, current, pending, was, answers);
    StillAccounted(channels, current, pending, was, answers);
    StillDistinct(current, pending, was);
    var left := Requeued(current, was) + pending;
    assert left + [] == left;
  }

  /** Polls the list; every channel there is, polled or not, is accounted for. */
  method PollOnce(lists: ChannelLists, answers: nat -> Accept, ghost channels: seq<Channel>,
                  ghost current: seq<Channel>, ghost pending: seq<Channel>)
    returns (ghost current': seq<Channel>)
    requires Holds(lists, channels, current, pending) && forall c :: c in channels ==> c.Conserves()
    modifies lists, Feet(channels)
    ensures Holds(lists, channels, current', []) && forall c :: c in channels ==> c.Conserves()
    ensures AllRaise(old(States(channels)), States(channels))
    ensures NoneFreed(old(States(channels)), States(channels))
    ensures DtpPoll.Served(current, old(Moments(current)), answers, |current|)
    ensures forall c :: c in channels && c !in current ==> MomentOf(c) == old(MomentOf(c))
  {
    ghost var was, before := Moments(current), States(channels);
    ghost var strangers := set c | c in channels && c !in current + pending;
    BeforePoll(channels, current, pending, strangers);
    assert Agree(channels, before, current, was);
    current' := PollLeaving(lists, answers, current, pending, strangers);
    PollHolds(lists, channels, before, current, pending, was, answers);
  }

  // ---------- Transfers come to their end ----------

  /** A transfer between open descriptors and to a prompt sink, in progress or about to start. */
  predicate Underway(m: Moment) {
    var code := GetState(m.state);
    && m.prompt && Open(m)
    && (code == DTP_SENDING || code == DTP_RECVING || (code == DTP_ESTABLISHED && Directed(m.state)))
  }

  predicate Over(m: Moment) {
    GetState(m.state) == DTP_CLOSED || GetState(m.state) == DTP_ERROR
  }

  /** Connected, with no direction: one that was given before the connection came is forgotten. */
  predicate Idle(m: Moment) {
    GetState(m.state) == DTP_ESTABLISHED && !Directed(m.state)
  }

  /** So many polls are enough for it. */
  function PollsLeft(m: Moment): nat {
    m.left + if GetState(m.state) == DTP_ESTABLISHED then 2 else 1
  }

  /**
   * What `n` polls make of a transfer: it is over, in an error exactly when a read or a write has failed meanwhile,
   * or has that much less to do. What is over, or has no direction, stays as it is.
   */
  predicate GoesOn(before: Moment, after: Moment, n: nat) {
    && (Underway(before) ==>
          && after.failures >= before.failures
          && (GetState(after.state) == DTP_ERROR <==> after.failures > before.failures)
          && (Over(after) || (Underway(after) && PollsLeft(after) + n <= PollsLeft(before))))
    && (Over(before) || Idle(before) ==> after == before)
  }

  /** So it goes for all the channels of a list. */
  ghost predicate AllGoOn(channels: seq<Channel>, polled: seq<Channel>, before: seq<Moment>, after: seq<Moment>, n: nat)
  {
    && |before| == |channels| == |after|
    && forall i :: 0 <= i < |channels| && channels[i] in polled ==> GoesOn(before[i], after[i], n)
  }

  lemma StepGoesOn(before: Moment, after: Moment, answer: Accept)
    requires Polled(before, after, answer)
    ensures GoesOn(before, after, 1)
  {
  }

  lemma OneRound(channels: seq<Channel>, before: seq<Moment>, current: seq<Channel>, was: seq<Moment>,
                 answers: nat -> Accept)
    requires |before| == |channels| && |was| == |current| && DtpPoll.Served(current, was, answers, |current|)
    requires forall i, k :: 0 <= i < |channels| && 0 <= k < |current| && channels[i] == current[k] ==>
               before[i] == was[k]
    ensures AllGoOn(channels, current, before, Moments(channels), 1)
  {
    forall i | 0 <= i < |channels| && channels[i] in current
      ensures GoesOn(before[i], MomentOf(channels[i]), 1)
    {
      var k :| 0 <= k < |current| && current[k] == channels[i];
      StepGoesOn(was[k], MomentOf(current[k]), answers(k));
    }
  }

  lemma MoreRounds(channels: seq<Channel>, current: seq<Channel>, next: seq<Channel>, before: seq<Moment>,
                   between: seq<Moment>, after: seq<Moment>, n: nat)
    requires AllGoOn(channels, current, before, between, 1) && AllGoOn(channels, next, between, after, n)
    requires forall i :: 0 <= i < |channels| && channels[i] in current && GetState(between[i].state) < DTP_FREE ==>
               channels[i] in next
    ensures AllGoOn(channels, current, before, after, n + 1)
  {
    forall i | 0 <= i < |channels| && channels[i] in current
      ensures GoesOn(before[i], after[i], n + 1)
    {
      assert GoesOn(before[i], between[i], 1);
      if channels[i] in next {
        assert GoesOn(between[i], after[i], n);
      }
    }
  }

  /** Whatever `n` polls were enough for is over: the whole source is delivered unless a read or a write has failed. */
  ghost predicate AllDelivered(channels: seq<Channel>, polled: seq<Channel>, before: seq<Moment>, n: nat)
    reads channels, set c | c in channels :: c.wire
  {
    && |before| == |channels|
    && forall i :: 0 <= i < |channels| && channels[i] in polled && Underway(before[i]) && n >= PollsLeft(before[i]) ==>
         if channels[i].wire.failures > before[i].failures then GetState(channels[i].state) == DTP_ERROR
         else GetState(channels[i].state) == DTP_CLOSED && channels[i].wire.written == channels[i].wire.source
  }

  lemma RoundsDeliver(channels: seq<Channel>, polled: seq<Channel>, before: seq<Moment>, n: nat)
    requires AllGoOn(channels, polled, before, Moments(channels), n) && forall c :: c in channels ==> c.Conserves()
    ensures AllDelivered(channels, polled, before, n)
  {
    forall i | 0 <= i < |channels| && channels[i] in polled && Underway(before[i]) && n >= PollsLeft(before[i])
      ensures if channels[i].wire.failures > before[i].failures then GetState(channels[i].state) == DTP_ERROR
              else GetState(channels[i].state) == DTP_CLOSED && channels[i].wire.written == channels[i].wire.source
    {
      assert GoesOn(before[i], MomentOf(channels[i]), n) && channels[i] in channels;
    }
  }

  lemma NoRounds(channels: seq<Channel>, current: seq<Channel>)
    ensures AllGoOn(channels, current, Moments(channels), Moments(channels), 0)
  {
  }

  /** A poll that brings every transfer a step on. */
  method PollOn(lists: ChannelLists, answers: nat -> Accept, ghost channels: seq<Channel>, ghost current: seq<Channel>,
                ghost pending: seq<Channel>, ghost before: seq<Moment>)
    returns (ghost current': seq<Channel>)
    requires Holds(lists, channels, current, pending) && forall c :: c in channels ==> c.Conserves()
    requires before == Moments(channels)
    modifies lists, Feet(channels)
    ensures Holds(lists, channels, current', []) && forall c :: c in channels ==> c.Conserves()
    ensures AllGoOn(channels, current, before, Moments(channels), 1)
    ensures forall c :: c in current && GetState(c.state) < DTP_FREE ==> c in current'
  {
    ghost var was := Moments(current);
    current' := PollOnce(lists, answers, channels, current, pending);
    OneRound(channels, before, current, was, answers);
    assert current' + [] == current';
  }

  /** So many polls, one after the other, with nothing in between; enough of them bring every transfer to its end. */
  method PollRounds(lists: ChannelLists, n: nat, answers: (nat, nat) -> Accept, ghost channels: seq<Channel>,
                    ghost current: seq<Channel>, ghost pending: seq<Channel>)
    returns (ghost current': seq<Channel>)
    requires Holds(lists, channels, current, pending) && forall c :: c in channels ==> c.Conserves()
    modifies lists, Feet(channels)
    ensures Holds(lists, channels, current', if n == 0 then pending else [])
    ensures forall c :: c in channels ==> c.Conserves()
    ensures AllGoOn(channels, current, old(Moments(channels)), Moments(channels), n)
    ensures AllDelivered(channels, current, old(Moments(channels)), n)
    decreases n
  {
    ghost var before := Moments(channels);
    current' := current;
    if n == 0 {
      NoRounds(channels, current);
    } else {
      ghost var next := PollOn(lists, (i: nat) => answers(n, i), channels, current, pending, before);
      ghost var between := Moments(channels);
      current' := PollRounds(lists, n - 1, answers, channels, next, []);
      MoreRounds(channels, current, next, before, between, Moments(channels), n - 1);
    }
    RoundsDeliver(channels, current, before, n);
  }

  // ---------- The other steps ----------

  /** There is a channel exactly if there is an address, and it is as it was asked for. */
  ghost predicate Opened(added: seq<Channel>, ip: nat, passive: bool, source: string, prompt: bool) {
    && |added| == (if ip == 0 then 0 else 1)
    && forall c :: c in added ==> c.passive == passive && c.wire.source == source && c.wire.prompt == prompt
  }

  /** A new channel shares nothing with the others, and leaves them alone. */
  method OpenChannel(lists: ChannelLists, ghost channels: seq<Channel>, ip: nat, passive: bool, source: string,
                     prompt: bool, ghost pending: seq<Channel>)
    returns (channel: Channel?)
    requires Chain(lists.nextList, pending) && forall c :: c in channels ==> c.Conserves()
    modifies lists`nextList
    ensures forall c :: c in channels ==> c.Conserves()
    ensures Opened(if channel == null then [] else [channel], ip, passive, source, prompt)
    ensures channel == null ==> lists.nextList == old(lists.nextList)
    ensures channel != null ==> fresh(Foot(channel)) && channel.Conserves() && channel !in pending
    ensures channel != null ==> channel.state == DTP_PENDING
    ensures channel != null ==> Chain(lists.nextList, [channel] + pending)
    ensures channel != null ==> forall c :: c in channels ==> Foot(c) !! Foot(channel)
  {
    var wire := new Wire(source, prompt);
    channel := NewDataChannel(lists, ip, passive, wire, pending);
  }

  /** Opens a channel over descriptors of its own; if there is one, it goes in front of those that wait. */
  method OpenJoined(lists: ChannelLists, ghost channels: seq<Channel>, ip: nat, passive: bool, source: string,
                    prompt: bool, ghost current: seq<Channel>, ghost pending: seq<Channel>)
    returns (added: seq<Channel>)
    requires Holds(lists, channels, current, pending) && forall c :: c in channels ==> c.Conserves()
    modifies lists`nextList
    ensures |added| <= 1 && (added != [] ==> fresh(Foot(added[0])) && added[0].state == DTP_PENDING)
    ensures Opened(added, ip, passive, source, prompt)
    ensures Holds(lists, channels + added, current, added + pending)
    ensures forall c :: c in channels + added ==> c.Conserves()
    ensures AllRaise(old(States(channels)), States(channels + added))
  {
    ghost var before := States(channels);
    var channel := OpenChannel(lists, channels, ip, passive, source, prompt, pending);
    assert States(channels) == before;
    if channel == null {
      SameRaise(before);
      assert channels + [] == channels && [] + pending == pending;
      added := [];
    } else {
      var one: Channel := channel;
      Joined(lists, channels, one, current, pending);
      added := [one];
    }
  }

  lemma SameRaise(states: seq<bv8>)
    ensures AllRaise(states, states)
  {
  }

  lemma MoreRaise(states: seq<bv8>, state: bv8)
    ensures AllRaise(states, states + [state])
  {
  }

  /** With a channel of its own parts in front of those that wait, everything still holds. */
  lemma Joined(lists: ChannelLists, channels: seq<Channel>, channel: Channel, current: seq<Channel>,
               pending: seq<Channel>)
    requires Chain(lists.list, current) && Chain(lists.nextList, [channel] + pending)
    requires Distinct(current + pending) && Separate(channels) && Accounted(channels, current + pending)
    requires forall c :: c in channels ==> Foot(c) !! Foot(channel) && c.Conserves()
    requires channel.Conserves()
    ensures Holds(lists, channels + [channel], current, [channel] + pending)
    ensures forall c :: c in channels + [channel] ==> c.Conserves()
    ensures AllRaise(States(channels), States(channels + [channel]))
  {
    assert channel !in channels by {
      assert channel in Foot(channel);
    }
    OneMore(channels, channel);
    Newcomer(current, pending, channel);
    assert (channels + [channel])[..|channels|] == channels;
    MoreRaise(States(channels), channel.state);
  }

  lemma OneMore(channels: seq<Channel>, channel: Channel)
    requires Separate(channels) && forall c :: c in channels ==> Foot(c) !! Foot(channel)
    ensures Separate(channels + [channel])
  {
    var more := channels + [channel];
    forall i, j | 0 <= i < j < |more|
      ensures Foot(more[i]) !! Foot(more[j])
    {
      assert more[i] == channels[i] && more[i] in channels;
      assert j < |channels| ==> Foot(channels[i]) !! Foot(channels[j]);
    }
  }

  lemma Newcomer(current: seq<Channel>, pending: seq<Channel>, channel: Channel)
    requires Distinct(current + pending) && channel !in current + pending
    ensures Distinct(current + ([channel] + pending))
  {
    PartsDistinct(current, pending);
    DistinctConcat([channel], pending);
    DistinctConcat(current, [channel] + pending);
  }

  /** Only the state of channel `k` differs, and it has risen. */
  lemma OneRaises(channels: seq<Channel>, before: seq<bv8>, k: nat)
    requires |before| == |channels| && k < |channels| && Raises(before[k], channels[k].state)
    requires forall i :: 0 <= i < |channels| && i != k ==> channels[i].state == before[i]
    ensures AllRaise(before, States(channels))
  {
  }

  lemma SeparateChannelsDiffer(channels: seq<Channel>)
    requires Separate(channels)
    ensures forall i, j :: 0 <= i < j < |channels| ==> channels[i] != channels[j]
  {
    forall i, j | 0 <= i < j < |channels|
      ensures channels[i] != channels[j]
    {
      assert channels[i] in Foot(channels[i]) && channels[j] in Foot(channels[j]);
    }
  }

  /** Only this channel's state differs, and it has risen. */
  lemma ThisRaises(channels: seq<Channel>, before: seq<bv8>, data: Channel)
    requires Separate(channels) && |before| == |channels| && data in channels
    requires forall i :: 0 <= i < |channels| ==>
      if channels[i] == data then Raises(before[i], data.state) else channels[i].state == before[i]
    ensures AllRaise(before, States(channels))
  {
    SeparateChannelsDiffer(channels);
    var k :| 0 <= k < |channels| && channels[k] == data;
    OneRaises(channels, before, k);
  }

  /** The first file is taken, and with it the direction. */
  predicate Sends(was: int, local: int, fd: int, state: bv8) {
    if was == -1 then local == fd && state & DTP_XMIT != 0 else local == was
  }

  /** The flags of a channel that is given a file change, and nothing that the lists depend on. */
  method SendKeeping(lists: ChannelLists, ghost channels: seq<Channel>, data: Channel, fd: int,
                     ghost current: seq<Channel>, ghost pending: seq<Channel>)
    requires Holds(lists, channels, current, pending) && forall c :: c in channels ==> c.Conserves()
    requires data in channels
    modifies data`localFd, data`state
    ensures Holds(lists, channels, current, pending) && forall c :: c in channels ==> c.Conserves()
    ensures GetState(data.state) == old(GetState(data.state))
    ensures Sends(old(data.localFd), data.localFd, fd, data.state)
  {
    var ok := SendFile(data, fd);
  }

  /** Gives a channel a file to send. */
  method SendOnce(lists: ChannelLists, ghost channels: seq<Channel>, data: Channel, fd: int,
                  ghost current: seq<Channel>, ghost pending: seq<Channel>)
    requires Holds(lists, channels, current, pending) && forall c :: c in channels ==> c.Conserves()
    requires data in channels
    modifies data`localFd, data`state
    ensures Holds(lists, channels, current, pending) && forall c :: c in channels ==> c.Conserves()
    ensures AllRaise(old(States(channels)), States(channels))
    ensures forall c :: c in channels ==> GetState(c.state) == old(GetState(c.state))
    ensures Sends(old(data.localFd), data.localFd, fd, data.state)
  {
    ghost var before := States(channels);
    SendKeeping(lists, channels, data, fd, current, pending);
    ThisRaises(channels, before, data);
  }

  /** A client lets go of a dead channel. */
  method LetGoOnce(lists: ChannelLists, ghost channels: seq<Channel>, data: Channel?,
                   ghost current: seq<Channel>, ghost pending: seq<Channel>)
    requires Holds(lists, channels, current, pending) && forall c :: c in channels ==> c.Conserves()
    requires data != null ==> data in channels && DTP_CLOSED <= GetState(data.state) < DTP_FREE
    modifies AsSet(data)`state
    ensures Holds(lists, channels, current, pending) && forall c :: c in channels ==> c.Conserves()
    ensures AllRaise(old(States(channels)), States(channels))
    ensures forall c :: c in channels && c != data ==> c.state == old(c.state)
  {
    ghost var before := States(channels);
    if data == null {
      SameRaise(before);
    } else {
      SeparateChannelsDiffer(channels);
      var one: Channel := data;
      LetGo(one);
      ThisRaises(channels, before, one);
    }
  }
}
