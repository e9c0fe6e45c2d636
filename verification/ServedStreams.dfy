/** What holds of a client between any two turns of any run, however the bytes arrived. */
module ServedStreams {
  import opened Clients
  import opened CommandWords
  import opened ControlChannel
  import opened DataEvents
  import opened Departures
  import opened Directories
  import opened Framing
  import opened IoBuffers
  import opened PathList
  import opened PathNames
  import opened Serving
  import opened Sessions
  import opened Turns

  /** Between turns, the client has executed the complete lines of what it received, and buffers the rest. */
  lemma ReceivedDecides(rules: Rules, client: Client)
    requires Follows(rules, client.pathMax) && InSync(rules, client)
    ensures Asked(client.log) == Requests(Lines(client.received)) && client.input.Contents() == Rest(client.received)
  {
    NoLines(client.input.Contents());
    assert Asked(client.log) + [] == Asked(client.log);
  }

  /**
   * Whatever the chunks were, a client that has received any list of sendable requests and part of another
   * has executed exactly that list, in order, and buffers exactly that part.
   */
  lemma CommandsRoundTrip(client: Client, requests: seq<Request>, tail: string)
    requires InSync(ServerRules(client.pathMax), client) && Encodes(client.received, requests, tail)
    ensures Asked(client.log) == Seen(requests) && client.input.Contents() == tail
  {
    ReceivedDecides(ServerRules(client.pathMax), client);
    EncodedRequests(client.received, requests, tail);
  }

  /** Two clients that received the same bytes, in whatever chunks, have executed the same commands. */
  lemma ChunksDoNotMatter(a: Client, b: Client)
    requires InSync(ServerRules(a.pathMax), a) && InSync(ServerRules(b.pathMax), b) && a.received == b.received
    ensures Asked(a.log) == Asked(b.log) && a.input.Contents() == b.input.Contents()
  {
    ReceivedDecides(ServerRules(a.pathMax), a);
    ReceivedDecides(ServerRules(b.pathMax), b);
  }

  /** The session is what the commands so far make of a new one. */
  lemma SessionIsRun(client: Client)
    requires InSync(ServerRules(client.pathMax), client)
    ensures client.Session() == Run(NewSession(), client.log, client.pathMax) && History(client.log)
    ensures Texts(client.log)
  {
    FoldIsRun(ServerRules(client.pathMax), NewSession(), client.log, client.pathMax);
  }

  /** The session is what the words of the commands so far make of a new one, and so is the login. */
  lemma SessionOverRuns(client: Client)
    requires InSync(ServerRules(client.pathMax), client)
    ensures client.Session() == ByWords(Session(0, [], [220]), client.log, client.pathMax)
    ensures client.state >= 2 <==> QuitStands(client.log) || LoginStands(client.log)
    ensures Directory(NamesOf(client.cwd.nodes)) && client.cwd.absolute
    ensures TameHistory(NewSession(), client.log, client.pathMax) ==>
              NamesOf(client.cwd.nodes) == Normalize(TypedPath(NewSession(), client.log, client.pathMax))
  {
    SessionIsRun(client);
    RunByWords(NewSession(), client.log, client.pathMax);
    LoginOverHistories(NewSession(), client.log, client.pathMax);
    TameOutcome(client.Session(), client.log, client.pathMax);
  }

  lemma TameOutcome(st: Session, log: seq<Event>, pathMax: nat)
    requires st == Run(NewSession(), log, pathMax) && History(log) && Texts(log)
    ensures TameHistory(NewSession(), log, pathMax) ==> st.cwd == Normalize(TypedPath(NewSession(), log, pathMax))
  {
    if TameHistory(NewSession(), log, pathMax) {
      CwdIsTypedPath(NewSession(), log, pathMax);
    }
  }

  // ---------- What a stream says about a client that has received a front of it ----------

  /**
   * For every front of a stream, the room left in a buffer behind the unfinished line, and whether a QUIT stands.
   * Like the rules, this is a parameter of the runs, which do not depend on what it says.
   */
  datatype Course = Course(room: nat -> int, leaves: nat -> bool)

  ghost predicate Takes(course: Course, stream: string, size: nat) {
    TakesRoom(course.room, stream, size) && TakesLeave(course.leaves, stream)
  }

  ghost predicate TakesRoom(room: nat -> int, stream: string, size: nat) {
    forall pos: nat {:trigger Rest(stream[..pos])} ::
      pos <= |stream| ==> room(pos) == size - 1 - |Rest(stream[..pos])|
  }

  ghost predicate TakesLeave(leaves: nat -> bool, stream: string) {
    forall pos: nat {:trigger Departs(stream, pos)} :: pos <= |stream| ==> (leaves(pos) <==> Departs(stream, pos))
  }

  ghost function CourseOf(stream: string, size: nat): (course: Course)
    ensures Takes(course, stream, size)
  {
    Course((pos: nat) => if pos <= |stream| then size - 1 - |Rest(stream[..pos])| else 0,
           (pos: nat) => pos <= |stream| && Departs(stream, pos))
  }

  /** Whether a QUIT stands is a matter of how much has been received. */
  lemma LeavingDecided(rules: Rules, client: Client, course: Course, stream: string, pos: nat)
    requires Follows(rules, client.pathMax) && InSync(rules, client) && Takes(course, stream, client.input.size)
    requires pos <= |stream| && client.received == stream[..pos]
    ensures QuitStands(client.log) <==> course.leaves(pos)
  {
    ReceivedDecides(rules, client);
    QuitsAgree(client.log);
    assert Departs(stream, pos) <==> QuitAsked(Requests(Lines(client.received)));
  }

  /** The room left is a matter of how much has been received. */
  lemma RoomRemains(rules: Rules, client: Client, course: Course, stream: string, pos: nat)
    requires ReadsStreams(rules) && InSync(rules, client) && Takes(course, stream, client.input.size)
    requires pos <= |stream| && client.received == stream[..pos]
    ensures client.input.Remaining() == course.room(pos)
  {
    HeadIs(client.input);
    TakesAt(course, stream, client.input.size, pos);
    RestIs(rules, client.received, client.input.Contents(), client.log);
  }

  lemma TakesAt(course: Course, stream: string, size: nat, pos: nat)
    requires Takes(course, stream, size) && pos <= |stream|
    ensures course.room(pos) == size - 1 - |Rest(stream[..pos])|
  {
  }

  lemma HeadIs(buffer: IoBuffer)
    requires buffer.Valid()
    ensures |buffer.Contents()| == buffer.head
  {
  }

  lemma RestIs(rules: Rules, received: string, contents: string, log: seq<Event>)
    requires ReadsStreams(rules) && Framed(rules, received, contents, log) && '\n' !in contents
    ensures Rest(received) == contents
  {
    NoLines(contents);
  }

  /** There is room at every point of the stream. */
  ghost predicate Roomy(course: Course, stream: string) {
    forall pos: nat :: pos <= |stream| ==> course.room(pos) > 0
  }

  lemma RestFitsAt(stream: string, pos: nat, received: string, capacity: nat)
    requires pos <= |stream| && received == stream[..pos] && Fits(stream, capacity)
    ensures |Rest(received)| < capacity
  {
    assert stream == stream[..pos] + stream[pos..];
    RestFits(stream[..pos], stream[pos..], capacity);
  }

  // ---------- Turns of a run ----------

  /** Where a turn ends that finds `offer` bytes of the stream at the socket and has this much room. */
  function NextEnd(length: nat, pos: nat, offer: nat, room: int): (end: nat)
    requires pos <= length
    ensures pos <= end <= length
    ensures offer > 0 && room > 0 && pos < length ==> pos < end
  {
    var there := if offer <= length - pos then offer else length - pos;
    if there <= room then pos + there else if room > 0 then pos + room else pos
  }

  /** A turn receives what there is and what fits, except that it may receive nothing while a transfer is running. */
  predicate EndsTurn(length: nat, start: nat, end: nat, offer: nat, room: int, transfer: Transfer) {
    start <= length && (end == NextEnd(length, start, offer, room) || (transfer.Running? && end == start))
  }

  function LastEnd(ends: seq<nat>): nat {
    if ends == [] then 0 else ends[|ends| - 1]
  }

  /** These are the ends of the turns of a run, each turn taking up where the one before it ended. */
  predicate Ends(ends: seq<nat>, length: nat, room: nat -> int, offers: seq<nat>, transfers: seq<Transfer>) {
    && |ends| <= |offers| == |transfers|
    && forall k {:trigger ends[k]} :: 0 <= k < |ends| ==>
        EndsTurn(length, LastEnd(ends[..k]), ends[k], offers[k], room(LastEnd(ends[..k])), transfers[k])
  }

  lemma EndsStep(ends: seq<nat>, length: nat, room: nat -> int, offers: seq<nat>, transfers: seq<Transfer>, end: nat)
    requires Ends(ends, length, room, offers, transfers) && |ends| < |offers|
    requires EndsTurn(length, LastEnd(ends), end, offers[|ends|], room(LastEnd(ends)), transfers[|ends|])
    ensures Ends(ends + [end], length, room, offers, transfers) && LastEnd(ends + [end]) == end
  {
    var more := ends + [end];
    forall k | 0 <= k < |more|
      ensures EndsTurn(length, LastEnd(more[..k]), more[k], offers[k], room(LastEnd(more[..k])), transfers[k])
    {
      assert more[..k] == ends[..k];
      assert ends[..|ends|] == ends;
    }
  }

  /** No turn of a run has left a QUIT standing. */
  predicate NoneLeaves(ends: seq<nat>, leaves: nat -> bool) {
    forall k {:trigger ends[k]} :: 0 <= k < |ends| ==> !leaves(ends[k])
  }

  lemma NoneLeavesStep(ends: seq<nat>, leaves: nat -> bool, end: nat)
    requires NoneLeaves(ends, leaves) && !leaves(end)
    ensures NoneLeaves(ends + [end], leaves)
  {
  }

  /** A turn after which the client has not been lost. */
  predicate Completes(outcome: Turn) {
    outcome.Stays? || outcome.Left?
  }

  /** What a completed turn comes to: so much has been received, and the client is let go exactly if a QUIT stands. */
  predicate TurnTo(outcome: Turn, course: Course, stream: string, pos: nat, pos': nat, offer: nat, transfer: Transfer,
                   received: string)
  {
    && EndsTurn(|stream|, pos, pos', offer, course.room(pos), transfer)
    && pos' <= |stream| && received == stream[..pos'] && (outcome.Left? <==> course.leaves(pos'))
  }

  /** One turn, with the next bytes of the stream at the socket. */
  method TakeTurn(ghost rules: Rules, client: Client, ghost course: Course, stream: string, pos: nat, offer: nat,
                  transfer: Transfer, wording: nat -> string, ghost given: seq<string>)
    returns (outcome: Turn, pos': nat)
    requires Follows(rules, client.pathMax) && InSync(rules, client) && Waiting(client, given) && Plain(wording)
    requires pos < |stream| && client.received == stream[..pos] && offer > 0
    requires Takes(course, stream, client.input.size) && Roomy(course, stream)
    modifies client, client.cwd, client.owned, client.input`head, client.input.buffer, client.input.line
    modifies client.output`head, client.output.buffer, client.output.line
    ensures !outcome.Closed? && (outcome.OverRead? ==> HasStray(rules, stream))
    ensures outcome.Overrun? ==> Fills(given, wording, client.output.size)
    ensures Completes(outcome) ==> InSync(rules, client) && Waiting(client, [])
    ensures Completes(outcome) ==> TurnTo(outcome, course, stream, pos, pos', offer, transfer, client.received)
    ensures Completes(outcome) ==>
              (client.cwd == old(client.cwd) || fresh(client.cwd)) && fresh(client.owned - old(client.owned))
  {
    RoomRemains(rules, client, course, stream, pos);
    var end := if offer <= |stream| - pos then pos + offer else |stream|;
    var arrival, room := Bytes(stream[pos..end]), client.input.Remaining();
    var listens := Listens(client.state, transfer);
    pos' := HeardUpTo(stream, pos, end, room, listens);
    var over, sent;
    outcome, over, sent := HandleClient(rules, client, transfer, arrival, wording, given);
    AfterTurn(rules, client, course, stream, pos', outcome);
  }

  /** How far a turn gets. */
  function HeardUpTo(stream: string, pos: nat, end: nat, room: int, listens: bool): (pos': nat)
    requires pos < end <= |stream| && room > 0
    ensures pos' <= |stream| && stream[..pos'] == stream[..pos] + Heard(listens, Bytes(stream[pos..end]), room)
    ensures pos' == if listens then NextEnd(|stream|, pos, end - pos, room) else pos
  {
    TakenPrefix(stream, pos, end, room);
    if listens then pos + |Taken(Bytes(stream[pos..end]), room)| else pos
  }

  lemma AfterTurn(rules: Rules, client: Client, course: Course, stream: string, pos: nat, outcome: Turn)
    requires Follows(rules, client.pathMax) && Takes(course, stream, client.input.size)
    requires pos <= |stream| && client.received == stream[..pos]
    requires Completes(outcome) ==> InSync(rules, client) && (outcome.Left? <==> QuitStands(client.log))
    requires outcome.OverRead? ==> HasStray(rules, client.received)
    ensures Completes(outcome) ==> (outcome.Left? <==> course.leaves(pos))
    ensures outcome.OverRead? ==> HasStray(rules, stream)
  {
    if Completes(outcome) {
      LeavingDecided(rules, client, course, stream, pos);
    } else if outcome.OverRead? {
      StrayInPrefix(rules, stream, pos);
    }
  }

  /**
   * A run of turns with these ends: none of them has left a QUIT standing, except that the last one has where the
   * client has been let go.
   */
  ghost predicate RunTo(left: bool, course: Course, length: nat, offers: seq<nat>, transfers: seq<Transfer>,
                        ends: seq<nat>)
  {
    && Ends(ends, length, course.room, offers, transfers)
    && if left then ends != [] && NoneLeaves(ends[..|ends| - 1], course.leaves) && course.leaves(LastEnd(ends))
       else NoneLeaves(ends, course.leaves)
  }

  lemma RunStep(outcome: Turn, course: Course, stream: string, offers: seq<nat>, transfers: seq<Transfer>,
                ends: seq<nat>, pos: nat, received: string)
    requires RunTo(false, course, |stream|, offers, transfers, ends) && |ends| < |offers|
    requires TurnTo(outcome, course, stream, LastEnd(ends), pos, offers[|ends|], transfers[|ends|], received)
    ensures RunTo(outcome.Left?, course, |stream|, offers, transfers, ends + [pos]) && LastEnd(ends + [pos]) == pos
  {
    EndsStep(ends, |stream|, course.room, offers, transfers, pos);
    if outcome.Left? {
      assert (ends + [pos])[..|ends + [pos]| - 1] == ends;
    } else {
      NoneLeavesStep(ends, course.leaves, pos);
    }
  }

  /** The rest of a run behind its first `i` turns, which have received the stream up to `pos`. */
  method ServeFrom(ghost rules: Rules, client: Client, ghost course: Course, stream: string, offers: seq<nat>,
                   transfers: seq<Transfer>, wording: nat -> string, ghost given: seq<string>, i: nat, pos: nat,
                   ghost ends: seq<nat>)
    returns (outcome: Turn, pos': nat, ghost ends': seq<nat>)
    requires Follows(rules, client.pathMax) && InSync(rules, client) && Waiting(client, given) && Plain(wording)
    requires RunTo(false, course, |stream|, offers, transfers, ends) && i == |ends| <= |offers| == |transfers|
    requires pos == LastEnd(ends) <= |stream| && client.received == stream[..pos]
    requires Takes(course, stream, client.input.size) && Roomy(course, stream)
    requires forall k :: 0 <= k < |offers| ==> offers[k] > 0
    modifies client, client.cwd, client.owned, client.input`head, client.input.buffer, client.input.line
    modifies client.output`head, client.output.buffer, client.output.line
    ensures !outcome.Closed? && (outcome.OverRead? ==> HasStray(rules, stream))
    ensures outcome.Overrun? ==> Fills(given, wording, client.output.size)
    ensures RunTo(outcome.Left?, course, |stream|, offers, transfers, ends')
    ensures Completes(outcome) ==>
              InSync(rules, client) && pos' == LastEnd(ends') <= |stream| && client.received == stream[..pos']
    ensures outcome.Stays? ==> pos' == |stream| || |ends'| == |offers|
    decreases |offers| - i
  {
    ends', pos' := ends, pos;
    if i == |offers| || pos == |stream| {
      return Stays, pos, ends;
    }
    outcome, pos' := TakeTurn(rules, client, course, stream, pos, offers[i], transfers[i], wording, given);
    if !Completes(outcome) {
      return;
    }
    RunStep(outcome, course, stream, offers, transfers, ends, pos', client.received);
    ends' := ends + [pos'];
    if outcome.Stays? {
      outcome, pos', ends' :=
        ServeFrom(rules, client, course, stream, offers, transfers, wording, [], i + 1, pos', ends');
    }
  }

  /**
   * A whole run: at each turn the socket offers so many bytes of the stream, and the client's transfer has become
   * what the polls in between have made of it. If every line fits the buffer, the client is never closed for want of
   * room. The run goes on to the end of the stream or of the offers, unless a request has an argument that is parsed
   * past its terminator, or a reply overruns the line buffer, or else exactly when a turn leaves a QUIT standing.
   */
  method ServeStream(ghost rules: Rules, client: Client, ghost course: Course, stream: string, offers: seq<nat>,
                     transfers: seq<Transfer>, wording: nat -> string, ghost given: seq<string>)
    returns (outcome: Turn, pos: nat, ghost ends: seq<nat>)
    requires Follows(rules, client.pathMax) && InSync(rules, client) && client.received == ""
    requires Waiting(client, given) && Plain(wording) && |transfers| == |offers|
    requires client.input.size >= 2 && Fits(stream, client.input.size - 1) && Takes(course, stream, client.input.size)
    requires forall i :: 0 <= i < |offers| ==> offers[i] > 0
    modifies client, client.cwd, client.owned, client.input`head, client.input.buffer, client.input.line
    modifies client.output`head, client.output.buffer, client.output.line
    ensures !outcome.Closed? && (outcome.OverRead? ==> HasStray(rules, stream))
    ensures outcome.Overrun? ==> Fills(given, wording, client.output.size)
    ensures RunTo(outcome.Left?, course, |stream|, offers, transfers, ends)
    ensures Completes(outcome) ==>
              InSync(rules, client) && pos == LastEnd(ends) <= |stream| && client.received == stream[..pos]
    ensures outcome.Stays? ==> pos == |stream| || |ends| == |offers|
  {
    RoomEverywhere(course, stream, client.input.size);
    outcome, pos, ends := ServeFrom(rules, client, course, stream, offers, transfers, wording, given, 0, 0, []);
  }

  /** Where no transfer is running, every turn receives something until the stream is at its end. */
  lemma {:induction false} EnoughTurns(course: Course, length: nat, offers: seq<nat>, transfers: seq<Transfer>,
                                       ends: seq<nat>)
    requires Ends(ends, length, course.room, offers, transfers)
    requires forall i :: 0 <= i < |offers| ==> offers[i] > 0 && !transfers[i].Running?
    requires forall pos: nat :: pos <= length ==> course.room(pos) > 0
    ensures LastEnd(ends) <= length && (LastEnd(ends) == length || LastEnd(ends) >= |ends|)
    decreases |ends|
  {
    if ends != [] {
      var before := ends[..|ends| - 1];
      forall k | 0 <= k < |before|
        ensures before[k] == ends[k] && before[..k] == ends[..k]
      {
      }
      EnoughTurns(course, length, offers, transfers, before);
      assert EndsTurn(length, LastEnd(before), ends[|before|], offers[|before|], course.room(LastEnd(before)),
                      transfers[|before|]);
    }
  }

  lemma RoomEverywhere(course: Course, stream: string, size: nat)
    requires Takes(course, stream, size) && size >= 2 && Fits(stream, size - 1)
    ensures Roomy(course, stream)
  {
    forall pos: nat | pos <= |stream|
      ensures course.room(pos) > 0
    {
      RestFitsAt(stream, pos, stream[..pos], size - 1);
    }
  }

  lemma EndsOrLeaves(course: Course, stream: string, size: nat, offers: seq<nat>, transfers: seq<Transfer>,
                     ends: seq<nat>, left: bool)
    requires RunTo(left, course, |stream|, offers, transfers, ends) && |offers| >= |stream|
    requires Takes(course, stream, size) && size >= 2 && Fits(stream, size - 1)
    requires forall i :: 0 <= i < |offers| ==> offers[i] > 0 && !transfers[i].Running?
    requires !left ==> LastEnd(ends) == |stream| || |ends| == |offers|
    ensures LastEnd(ends) <= |stream| && (LastEnd(ends) == |stream| || (left && course.leaves(LastEnd(ends))))
  {
    RoomEverywhere(course, stream, size);
    EnoughTurns(course, |stream|, offers, transfers, ends);
  }

  /** If only the last request asks to quit, all are there at the end of the stream, and where a QUIT stands. */
  lemma WholeFront(course: Course, stream: string, requests: seq<Request>, tail: string, pos: nat, size: nat)
    requires Encodes(stream, requests, tail) && QuitsLast(Seen(requests)) && Takes(course, stream, size)
    requires pos <= |stream| && (pos == |stream| || course.leaves(pos))
    ensures Front(stream, pos) == Seen(requests)
  {
    EncodedRequests(stream, requests, tail);
    if pos == |stream| {
      assert stream[..pos] == stream;
    } else {
      assert Departs(stream, pos);
      LastQuitServed(stream, pos);
    }
  }

  /**
   * After a run over a list of requests of which none but the last asks to quit, exactly that list has been executed,
   * in order, however it was cut into chunks, if there were chunks enough and no transfer held it up. What has been
   * received and executed is as `ServeStream` and `ReceivedDecides` say.
   */
  lemma ServedWhole(received: string, log: seq<Event>, size: nat, course: Course, stream: string,
                    requests: seq<Request>, tail: string, offers: seq<nat>, transfers: seq<Transfer>, ends: seq<nat>,
                    left: bool)
    requires Takes(course, stream, size) && size >= 2 && Fits(stream, size - 1)
    requires Encodes(stream, requests, tail) && QuitsLast(Seen(requests))
    requires RunTo(left, course, |stream|, offers, transfers, ends) && |offers| >= |stream|
    requires forall i :: 0 <= i < |offers| ==> offers[i] > 0 && !transfers[i].Running?
    requires !left ==> LastEnd(ends) == |stream| || |ends| == |offers|
    requires LastEnd(ends) <= |stream| && received == stream[..LastEnd(ends)]
    requires Asked(log) == Requests(Lines(received))
    ensures Asked(log) == Seen(requests)
  {
    EndsOrLeaves(course, stream, size, offers, transfers, ends, left);
    WholeFront(course, stream, requests, tail, LastEnd(ends), size);
  }

  /** What is received early is still there when more has come. */
  lemma StrayInPrefix(rules: Rules, stream: string, pos: nat)
    requires ReadsStreams(rules) && pos <= |stream| && HasStray(rules, stream[..pos])
    ensures HasStray(rules, stream)
  {
    var early := stream[..pos];
    RequestsGrow(early, stream[pos..], stream);
    StrayGrows(rules, early, stream);
  }

  lemma StrayGrows(rules: Rules, early: string, stream: string)
    requires rules.requests(early) <= rules.requests(stream) && HasStray(rules, early)
    ensures HasStray(rules, stream)
  {
    var r :| r in rules.requests(early) && rules.strays(r);
    assert r in rules.requests(stream);
  }

  lemma TakenPrefix(stream: string, pos: nat, end: nat, room: nat)
    requires pos < end <= |stream|
    ensures var taken := Taken(Bytes(stream[pos..end]), room);
            pos + |taken| <= |stream| && stream[..pos] + taken == stream[..pos + |taken|]
  {
  }
}
