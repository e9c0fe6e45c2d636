/** Runs of the whole server: clients that come, take turns and go, in between polls of their data channels. */
module ServerRuns {
  import opened ControlChannel
  import opened DataEvents
  import opened Dtp
  import opened DtpPoll
  import opened DtpRuns
  import opened Serving
  import opened Sessions
  import opened Turns
  import opened Seats
  import opened ServerSteps

  /**
   * What can happen between two moments: a client connects, every channel is polled, a client's handlers open a
   * channel for it or give its channel a file to send, or a client takes its turn.
   */
  datatype Step =
    | Connect
    | PollAll(answers: nat -> Accept)
    | Open(seat: nat, ip: nat, passive: bool, source: string, prompt: bool)
    | Send(seat: nat, fd: int)
    | TakeTurn(seat: nat, arrival: Arrival, wording: nat -> string)

  /**
   * Where a run ends: with a turn that ends it, with a second PASV, which frees a channel that is still in the lists,
   * or with one that gets no channel and describes it all the same.
   */
  datatype Halt = Goes | Halts(turn: Turn) | FreesListed | NullChannel

  /** What a turn receives is not empty, and its replies say what they say on one line. */
  ghost predicate Possible(step: Step) {
    step.TakeTurn? ==> Plain(step.wording) && (step.arrival.Bytes? ==> step.arrival.data != "")
  }

  /** Everything the clients and the channels consist of. */
  ghost function Things(seats: seq<Seat>, channels: seq<Channel>): set<object>
    reads ClientsOf(seats), set c | c in ClientsOf(seats) :: c.cwd
  {
    ReachOf(ClientsOf(seats)) + Feet(channels)
  }

  /** What stops a run at a step. */
  predicate StopsAt(halt: Halt, step: Step) {
    match halt
    case Goes => false
    case Halts(turn) => step.TakeTurn? && (turn.Closed? || turn.OverRead? || turn.Overrun?)
    case FreesListed => step.Open? && step.passive
    case NullChannel => step.Open? && step.passive
  }

  /** The step behind the first `taken` stops the run. */
  predicate Stopped(halt: Halt, steps: seq<Step>, taken: nat) {
    taken < |steps| && StopsAt(halt, steps[taken])
  }

  lemma StoppedLater(halt: Halt, steps: seq<Step>, taken: nat)
    requires steps != []
    ensures Stopped(halt, steps[1..], taken) <==> Stopped(halt, steps, taken + 1)
  {
  }

  // ---------- What there is to see of a step ----------

  /** What there is to see of a client: what it has received, its room for more, its state, and its transfer. */
  datatype Glance = Glance(received: string, room: int, state: bv32, log: seq<Event>, transfer: Transfer)

  ghost function GlanceOf(seat: Seat): Glance
    reads seat.client, seat.client.input, AsSet(seat.data)
  {
    Glance(seat.client.received, seat.client.input.Remaining(), seat.client.state, seat.client.log,
           TransferOf(seat.data))
  }

  /** What there is to see of the server at one time; `current` is the list to be polled. */
  datatype View = View(seats: seq<Seat>, channels: seq<Channel>, current: seq<Channel>, glances: seq<Glance>,
                       moments: seq<Moment>)

  ghost function Glances(seats: seq<Seat>): (r: seq<Glance>)
    reads set s | s in seats :: s.client, set s | s in seats :: s.client.input
    reads set s, c | s in seats && c in AsSet(s.data) :: c
    ensures |r| == |seats| && forall i :: 0 <= i < |r| ==> r[i] == GlanceOf(seats[i])
  {
    if seats == [] then [] else Glances(seats[..|seats| - 1]) + [GlanceOf(seats[|seats| - 1])]
  }

  ghost function ViewOf(seats: seq<Seat>, channels: seq<Channel>, current: seq<Channel>): View
    reads set s | s in seats :: s.client, set s | s in seats :: s.client.input
    reads set s, c | s in seats && c in AsSet(s.data) :: c
    reads channels, set c | c in channels :: c.buffer, set c | c in channels :: c.wire
  {
    View(seats, channels, current, Glances(seats), Moments(channels))
  }

  /** Every channel that was listed has taken the step that was due, and the others have taken none. */
  ghost predicate HasPolled(v: View, w: View, answers: nat -> Accept) {
    && w.seats == v.seats && w.channels == v.channels && |v.moments| == |v.channels| == |w.moments|
    && forall i, k :: 0 <= i < |v.channels| && 0 <= k < |v.current| && v.channels[i] == v.current[k] ==>
         Polled(v.moments[i], w.moments[i], answers(k))
  }

  /** The channel of seat `i` has its first file. */
  ghost predicate HasSent(v: View, w: View, i: nat, fd: int) {
    && w.seats == v.seats && w.channels == v.channels && |v.moments| == |v.channels| == |w.moments|
    && forall k :: 0 <= k < |v.channels| && i < |v.seats| && v.channels[k] == v.seats[i].data ==>
         Sends(v.moments[k].local, w.moments[k].local, fd, w.moments[k].state)
  }

  /**
   * The client of seat `i` has received what it could; it has no channel any more if its transfer was over, and has
   * left exactly if a QUIT stands.
   */
  ghost predicate HasTurned(v: View, w: View, i: nat, arrival: Arrival) {
    && w.channels == v.channels && i < |v.seats| == |v.glances| && |w.seats| == |w.glances|
    && var before := v.glances[i];
       var gone := if before.state & 8 != 0 && !before.transfer.Running? then v.seats[i].data else null;
       exists after: Glance ::
         && after.received == before.received + Heard(Listens(before.state, before.transfer), arrival, before.room)
         && w.seats == (if QuitStands(after.log) then v.seats[..i] + v.seats[i + 1..]
                        else if gone == null then v.seats
                        else v.seats[i := Seat(v.seats[i].client, null)])
         && (!QuitStands(after.log) ==> i < |w.glances| && w.glances[i] == after)
  }

  /** The client has a channel of its own as it was asked for, or none without an address. */
  ghost predicate HasOpened(seats: seq<Seat>, seats': seq<Seat>, channels: seq<Channel>, channels': seq<Channel>,
                            step: Step)
    requires step.Open? && step.seat < |seats|
  {
    && channels <= channels'
    && Opened(channels'[|channels|..], step.ip, step.passive, step.source, step.prompt)
    && seats' == seats[step.seat := Seat(seats[step.seat].client, if step.ip == 0 then null else channels'[|channels|])]
  }

  /** The step is for a seat that somebody has. */
  predicate Concerns(step: Step, seats: seq<Seat>) {
    match step
    case Connect => true
    case PollAll(_) => true
    case Open(i, _, _, _, _) => i < |seats|
    case Send(i, _) => i < |seats| && seats[i].data != null
    case TakeTurn(i, _, _) => i < |seats|
  }

  /** One step, as it can be seen. */
  ghost predicate Did(step: Step, v: View, w: View) {
    if !Concerns(step, v.seats) then w.seats == v.seats && w.channels == v.channels
    else match step
      case Connect =>
        && w.channels == v.channels && v.seats <= w.seats
        && |w.seats| == if |v.seats| < 25 then |v.seats| + 1 else |v.seats|
      case PollAll(answers) => HasPolled(v, w, answers)
      case Open(_, _, _, _, _) => HasOpened(v.seats, w.seats, v.channels, w.channels, step)
      case Send(i, fd) => HasSent(v, w, i, fd)
      case TakeTurn(i, arrival, _) => HasTurned(v, w, i, arrival)
  }

  /** What there is to see of the same channel, read off two lists. */
  ghost predicate SameSeen(channels: seq<Channel>, moments: seq<Moment>, current: seq<Channel>, was: seq<Moment>) {
    && |moments| == |channels| && |was| == |current|
    && forall i, k :: 0 <= i < |channels| && 0 <= k < |current| && channels[i] == current[k] ==> moments[i] == was[k]
  }

  lemma SameMoments(channels: seq<Channel>, moments: seq<Moment>, current: seq<Channel>, was: seq<Moment>)
    requires moments == Moments(channels) && was == Moments(current)
    ensures SameSeen(channels, moments, current, was)
  {
  }

  lemma PollSeen(v: View, w: View, answers: nat -> Accept, was: seq<Moment>)
    requires w.seats == v.seats && w.channels == v.channels && SameSeen(v.channels, v.moments, v.current, was)
    requires DtpPoll.Served(v.current, was, answers, |v.current|)
    requires w.moments == Moments(w.channels)
    ensures HasPolled(v, w, answers)
  {
    forall i, k | 0 <= i < |v.channels| && 0 <= k < |v.current| && v.channels[i] == v.current[k]
      ensures Polled(v.moments[i], w.moments[i], answers(k))
    {
      assert MomentOf(v.current[k]) == w.moments[i];
    }
  }

  lemma TurnSeen(v: View, w: View, i: nat, arrival: Arrival, received: string, log: seq<Event>, gone: Channel?)
    requires w.channels == v.channels && i < |v.seats| == |v.glances| && w.glances == Glances(w.seats)
    requires gone == if v.glances[i].state & 8 != 0 && !v.glances[i].transfer.Running? then v.seats[i].data else null
    requires received == v.glances[i].received +
               Heard(Listens(v.glances[i].state, v.glances[i].transfer), arrival, v.glances[i].room)
    requires w.seats == Seated(v.seats, i, QuitStands(log), gone)
    requires v.seats[i].client.received == received && v.seats[i].client.log == log
    ensures HasTurned(v, w, i, arrival)
  {
    var after := if QuitStands(log) then Glance(received, 0, 0, log, NoChannel) else GlanceOf(w.seats[i]);
    assert after.received == received && after.log == log;
  }

  // ---------- One step ----------

  /** Opens a channel for a client, unless that ends the run. */
  method Opening(ghost rules: Rules, lists: ChannelLists, seats: seq<Seat>, ghost channels: seq<Channel>, step: Step,
                 ghost current: seq<Channel>, ghost pending: seq<Channel>)
    returns (halt: Halt, seats': seq<Seat>, ghost channels': seq<Channel>, ghost pending': seq<Channel>)
    requires InOrder(rules, lists, seats, channels, current, pending) && step.Open? && step.seat < |seats|
    modifies lists`nextList
    ensures !halt.Halts?
    ensures halt.FreesListed? <==> step.passive && seats[step.seat].data != null
    ensures halt.NullChannel? <==> step.passive && seats[step.seat].data == null && step.ip == 0
    ensures halt.Goes? ==> InOrder(rules, lists, seats', channels', current, pending')
    ensures halt.Goes? ==> Did(step, old(ViewOf(seats, channels, current)), ViewOf(seats', channels', current))
    ensures channels <= channels' && AllRaise(old(States(channels)), States(channels'))
    ensures fresh(Things(seats', channels') - old(Things(seats, channels)))
  {
    seats', channels', pending' := seats, channels, pending;
    if step.passive && seats[step.seat].data != null {
      SameRaise(States(channels));
      return FreesListed, seats, channels, pending;
    }
    var added;
    seats', added := OpenStep(rules, lists, seats, channels, step.seat, step.ip, step.passive, step.source,
      step.prompt, current, pending);
    channels', pending' := channels + added, added + pending;
    assert channels'[|channels|..] == added;
    halt := if step.passive && added == [] then NullChannel else Goes;
  }

  /** Lets a client in, if there is a seat. */
  method Connecting(ghost rules: Rules, ghost lists: ChannelLists, seats: seq<Seat>, ghost channels: seq<Channel>,
                    pathMax: nat, step: Step, ghost current: seq<Channel>, ghost pending: seq<Channel>)
    returns (seats': seq<Seat>)
    requires step.Connect?
    requires InOrder(rules, lists, seats, channels, current, pending) && pathMax >= 2 && Follows(rules, pathMax)
    ensures InOrder(rules, lists, seats', channels, current, pending)
    ensures Did(step, old(ViewOf(seats, channels, current)), ViewOf(seats', channels, current))
    ensures AllRaise(old(States(channels)), States(channels))
    ensures fresh(Things(seats', channels) - old(Things(seats, channels)))
  {
    SameRaise(States(channels));
    seats' := seats;
    if |seats| < MAX_CLIENTS {
      var client := ConnectStep(rules, lists, seats, channels, pathMax, current, pending);
      seats' := seats + [Seat(client, null)];
    }
  }

  /** A client takes its turn, as it can be seen. */
  method Turning(ghost rules: Rules, lists: ChannelLists, seats: seq<Seat>, ghost channels: seq<Channel>, step: Step,
                 ghost current: seq<Channel>, ghost pending: seq<Channel>)
    returns (outcome: Turn, gone: Channel?)
    requires InOrder(rules, lists, seats, channels, current, pending) && Possible(step)
    requires step.TakeTurn? && step.seat < |seats|
    modifies Reach(seats[step.seat].client), AsSet(seats[step.seat].data)`state
    ensures outcome.Stays? || outcome.Left? ==>
              InOrder(rules, lists, Seated(seats, step.seat, outcome.Left?, gone), channels, current, pending)
    ensures outcome.Stays? || outcome.Left? ==>
              fresh(ReachOf(ClientsOf(Seated(seats, step.seat, outcome.Left?, gone))) - old(ReachOf(ClientsOf(seats))))
    ensures outcome.Stays? || outcome.Left? ==> AllRaise(old(States(channels)), States(channels))
    ensures outcome.Stays? || outcome.Left? ==>
              Did(step, old(ViewOf(seats, channels, current)),
                  ViewOf(Seated(seats, step.seat, outcome.Left?, gone), channels, current))
  {
    ghost var v := ViewOf(seats, channels, current);
    outcome, gone :=
      TurnStep(rules, lists, seats, channels, step.seat, step.arrival, step.wording, current, pending);
    if outcome.Stays? || outcome.Left? {
      ghost var client, left := seats[step.seat].client, outcome.Left?;
      TurnSeen(v, ViewOf(Seated(seats, step.seat, left, gone), channels, current), step.seat, step.arrival,
        client.received, client.log, gone);
    }
  }

  /** Lets a client take its turn. */
  method TakingTurn(ghost rules: Rules, lists: ChannelLists, seats: seq<Seat>, ghost channels: seq<Channel>, step: Step,
                    ghost current: seq<Channel>, ghost pending: seq<Channel>)
    returns (halt: Halt, seats': seq<Seat>)
    requires InOrder(rules, lists, seats, channels, current, pending) && Possible(step)
    requires step.TakeTurn? && step.seat < |seats|
    modifies Reach(seats[step.seat].client), AsSet(seats[step.seat].data)`state
    ensures halt.Goes? || (halt.Halts? && StopsAt(halt, step))
    ensures halt.Goes? ==> InOrder(rules, lists, seats', channels, current, pending)
    ensures halt.Goes? ==> AllRaise(old(States(channels)), States(channels))
    ensures halt.Goes? ==> fresh(Things(seats', channels) - old(Things(seats, channels)))
    ensures halt.Goes? ==> Did(step, old(ViewOf(seats, channels, current)), ViewOf(seats', channels, current))
  {
    var outcome, gone := Turning(rules, lists, seats, channels, step, current, pending);
    if outcome.Stays? || outcome.Left? {
      halt, seats' := Goes, Seated(seats, step.seat, outcome.Left?, gone);
    } else {
      halt, seats' := Halts(outcome), seats;
    }
  }

  /** Polls every channel. */
  method Polling(ghost rules: Rules, lists: ChannelLists, ghost seats: seq<Seat>, ghost channels: seq<Channel>,
                 step: Step, ghost current: seq<Channel>, ghost pending: seq<Channel>)
    returns (ghost current': seq<Channel>)
    requires InOrder(rules, lists, seats, channels, current, pending) && step.PollAll?
    modifies lists, Feet(channels)
    ensures InOrder(rules, lists, seats, channels, current', [])
    ensures Did(step, old(ViewOf(seats, channels, current)), ViewOf(seats, channels, current'))
    ensures AllRaise(old(States(channels)), States(channels))
    ensures ReachOf(ClientsOf(seats)) == old(ReachOf(ClientsOf(seats)))
  {
    ghost var v, was := ViewOf(seats, channels, current), Moments(current);
    SameMoments(channels, v.moments, current, was);
    current' := PollStep(rules, lists, step.answers, seats, channels, current, pending);
    PollSeen(v, ViewOf(seats, channels, current'), step.answers, was);
  }

  /** Gives a client's channel a file. */
  method Sending(ghost rules: Rules, lists: ChannelLists, seats: seq<Seat>, ghost channels: seq<Channel>, step: Step,
                 ghost current: seq<Channel>, ghost pending: seq<Channel>)
    requires InOrder(rules, lists, seats, channels, current, pending)
    requires step.Send? && Concerns(step, seats) && seats[step.seat].data in channels
    modifies AsSet(seats[step.seat].data)`localFd, AsSet(seats[step.seat].data)`state
    ensures InOrder(rules, lists, seats, channels, current, pending)
    ensures Did(step, old(ViewOf(seats, channels, current)), ViewOf(seats, channels, current))
    ensures AllRaise(old(States(channels)), States(channels))
    ensures ReachOf(ClientsOf(seats)) == old(ReachOf(ClientsOf(seats)))
  {
    SendStep(rules, lists, seats, channels, seats[step.seat].data, step.fd, current, pending);
  }

  /** What one step may touch. */
  lemma WithinThings(seats: seq<Seat>, channels: seq<Channel>, i: nat)
    requires Held(seats, channels) && i < |seats|
    ensures Reach(seats[i].client) <= Things(seats, channels) && Feet(channels) <= Things(seats, channels)
    ensures seats[i].data != null ==> seats[i].data in channels && seats[i].data in Things(seats, channels)
  {
    assert seats[i].client in ClientsOf(seats) by {
      assert ClientsOf(seats)[i] == seats[i].client;
    }
    if seats[i].data != null {
      OneInFeet(channels, seats[i].data);
    }
  }

  /** A step for a seat that somebody has. */
  method PerformFor(ghost rules: Rules, lists: ChannelLists, seats: seq<Seat>, ghost channels: seq<Channel>,
                    step: Step, ghost current: seq<Channel>, ghost pending: seq<Channel>, ghost own: set<object>)
    returns (halt: Halt, seats': seq<Seat>, ghost channels': seq<Channel>, ghost pending': seq<Channel>)
    requires InOrder(rules, lists, seats, channels, current, pending)
    requires Possible(step) && Things(seats, channels) <= own
    requires (step.Open? || step.Send? || step.TakeTurn?) && Concerns(step, seats)
    modifies lists, own
    ensures halt.Goes? ==> InOrder(rules, lists, seats', channels', current, pending')
    ensures halt.Goes? ==> channels <= channels' && AllRaise(old(States(channels)), States(channels'))
    ensures halt.Goes? ==> fresh(Things(seats', channels') - own)
    ensures !halt.Goes? ==> StopsAt(halt, step)
    ensures halt.FreesListed? ==> seats[step.seat].data in current + pending
    ensures halt.Goes? ==> Did(step, old(ViewOf(seats, channels, current)), ViewOf(seats', channels', current))
  {
    halt, seats', channels', pending' := Goes, seats, channels, pending;
    if seats[step.seat].data != null {
      HeldIsListed(rules, lists, seats, channels, current, pending, step.seat);
    }
    WithinThings(seats, channels, step.seat);
    match step {
    case Open(_, _, _, _, _) =>
      halt, seats', channels', pending' := Opening(rules, lists, seats, channels, step, current, pending);
    case Send(_, _) =>
      Sending(rules, lists, seats, channels, step, current, pending);
    case TakeTurn(_, _, _) =>
      halt, seats' := TakingTurn(rules, lists, seats, channels, step, current, pending);
    }
  }

  /**
   * Takes one step: a client is let in while there is a seat, every channel that was listed takes the step that is
   * due, a client has the channel it asked for, a channel has its first file, or a client has received what there was
   * room for. A step for a seat that nobody has changes nothing.
   */
  method Perform(ghost rules: Rules, pathMax: nat, lists: ChannelLists, seats: seq<Seat>,
                 ghost channels: seq<Channel>, step: Step, ghost current: seq<Channel>, ghost pending: seq<Channel>,
                 ghost own: set<object>)
    returns (halt: Halt, seats': seq<Seat>, ghost channels': seq<Channel>, ghost current': seq<Channel>,
             ghost pending': seq<Channel>, ghost own': set<object>)
    requires InOrder(rules, lists, seats, channels, current, pending) && pathMax >= 2 && Follows(rules, pathMax)
    requires Possible(step) && Things(seats, channels) <= own
    modifies lists, own
    ensures halt.Goes? ==> InOrder(rules, lists, seats', channels', current', pending')
    ensures halt.Goes? ==> channels <= channels' && AllRaise(old(States(channels)), States(channels'))
    ensures halt.Goes? ==> Things(seats', channels') <= own' && fresh(own' - own)
    ensures !halt.Goes? ==> StopsAt(halt, step)
    ensures halt.FreesListed? ==> step.seat < |seats| && seats[step.seat].data in current + pending
    ensures halt.Goes? ==> Did(step, old(ViewOf(seats, channels, current)), ViewOf(seats', channels', current'))
  {
    halt, seats', channels', current', pending' := Goes, seats, channels, current, pending;
    SameRaise(States(channels));
    if step.Connect? {
      seats' := Connecting(rules, lists, seats, channels, pathMax, step, current, pending);
    } else if step.PollAll? {
      current' := Polling(rules, lists, seats, channels, step, current, pending);
      pending' := [];
    } else if Concerns(step, seats) {
      halt, seats', channels', pending' :=
        PerformFor(rules, lists, seats, channels, step, current, pending, own);
    }
    own' := own + Things(seats', channels');
  }

  /** In the views of a run, each step did what it does. */
  ghost predicate Shown(views: seq<View>, steps: seq<Step>, taken: nat) {
    && taken <= |steps| && |views| == taken + 1
    && forall k :: 0 <= k < taken ==> Did(steps[k], views[k], views[k + 1])
  }

  lemma ShownMore(views: seq<View>, steps: seq<Step>, taken: nat, first: View)
    requires steps != [] && Shown(views, steps[1..], taken) && Did(steps[0], first, views[0])
    ensures Shown([first] + views, steps, taken + 1)
  {
    var all := [first] + views;
    forall k | 0 <= k < taken + 1
      ensures Did(steps[k], all[k], all[k + 1])
    {
      if k > 0 {
        assert steps[k] == steps[1..][k - 1] && all[k] == views[k - 1] && all[k + 1] == views[k];
      }
    }
  }

  /**
   * Any steps at all, from any moment on. Unless one of them ends the run, everything that has to hold between two
   * steps holds behind them; the channels there were are still there, and their states have only risen. Nothing is
   * touched but what the server consisted of, and it consists of nothing else but what is new. In the views between
   * the steps, each step has done what it does.
   */
  method Run(ghost rules: Rules, pathMax: nat, lists: ChannelLists, seats: seq<Seat>, ghost channels: seq<Channel>,
             steps: seq<Step>, ghost current: seq<Channel>, ghost pending: seq<Channel>, ghost own: set<object>)
    returns (halt: Halt, taken: nat, seats': seq<Seat>, ghost channels': seq<Channel>,
             ghost current': seq<Channel>, ghost pending': seq<Channel>, ghost own': set<object>,
             ghost views: seq<View>)
    requires InOrder(rules, lists, seats, channels, current, pending) && pathMax >= 2 && Follows(rules, pathMax)
    requires (forall s :: s in steps ==> Possible(s)) && Things(seats, channels) <= own
    modifies lists, own
    ensures halt.Goes? ==> taken == |steps| && InOrder(rules, lists, seats', channels', current', pending')
    ensures halt.Goes? ==> channels <= channels' && AllRaise(old(States(channels)), States(channels'))
    ensures halt.Goes? ==> Things(seats', channels') <= own' && (forall o :: o in own' && o !in own ==> fresh(o))
    ensures Stopped(halt, steps, taken) <==> !halt.Goes?
    ensures Shown(views, steps, taken) && views[0] == old(ViewOf(seats, channels, current))
    ensures halt.Goes? ==> views[taken] == ViewOf(seats', channels', current')
    decreases |steps|
  {
    ghost var before, first := States(channels), ViewOf(seats, channels, current);
    views := [first];
    if steps == [] {
      SameRaise(before);
      return Goes, 0, seats, channels, current, pending, own, views;
    }
    var halted, next;
    ghost var channels0, current0, pending0, own0;
    halted, next, channels0, current0, pending0, own0 :=
      Perform(rules, pathMax, lists, seats, channels, steps[0], current, pending, own);
    if !halted.Goes? {
      return halted, 0, seats, channels, current, pending, own, views;
    }
    ghost var between := States(channels0);
    ghost var rest;
    halt, taken, seats', channels', current', pending', own', rest :=
      Run(rules, pathMax, lists, next, channels0, steps[1..], current0, pending0, own0);
    StoppedLater(halt, steps, taken);
    ShownMore(rest, steps, taken, first);
    views := [first] + rest;
    taken := taken + 1;
    if halt.Goes? {
      AllRaiseTransitive(before, between, States(channels'));
    }
  }

  /** Any steps at all, from a server without clients and channels on. */
  method RunFromStart(ghost rules: Rules, pathMax: nat, steps: seq<Step>)
    returns (halt: Halt, taken: nat, lists: ChannelLists, seats: seq<Seat>, ghost channels: seq<Channel>,
             ghost current: seq<Channel>, ghost pending: seq<Channel>, ghost views: seq<View>)
    requires pathMax >= 2 && Follows(rules, pathMax) && forall s :: s in steps ==> Possible(s)
    ensures halt.Goes? ==> taken == |steps| && InOrder(rules, lists, seats, channels, current, pending)
    ensures Stopped(halt, steps, taken) <==> !halt.Goes?
    ensures Shown(views, steps, taken) && views[0] == View([], [], [], [], [])
    ensures halt.Goes? ==> views[taken] == ViewOf(seats, channels, current)
  {
    lists := new ChannelLists();
    ghost var own;
    halt, taken, seats, channels, current, pending, own, views := Run(rules, pathMax, lists, [], [], steps, [], [], {});
  }
}
