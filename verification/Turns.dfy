/** One turn of a client: its transfer, its control connection, its replies, and its end. */
module Turns {
  import opened Clients
  import opened ControlChannel
  import opened DataEvents
  import opened Serving
  import opened Sessions
  import PortCodec
  import Replies

  /**
   * What a turn comes to: the client stays, or has quit and is released. It is also released when its connection
   * ends or its input buffer is full, and then the code goes on with what it has released; a run ends there, as it
   * does where an argument is parsed past its terminator or a line overruns the output's line buffer.
   */
  datatype Turn = Stays | Left | Closed | OverRead | Overrun

  // ---------- Replies of a turn ----------

  /** The texts given since the last turn are in the output buffer, as far as they fit. */
  ghost predicate Waiting(client: Client, given: seq<string>)
    reads client.output, client.output.buffer
  {
    && client.output.Valid() && Apart(client) && (forall t :: t in given ==> Replies.IsLine(t))
    && client.output.Contents() == Replies.Concat(Replies.Fitting(client.output.size, given))
  }

  /** What each reply of a client says behind its code, from the first on, is on one line. */
  ghost predicate Plain(wording: nat -> string) {
    forall k {:trigger wording(k)} :: Replies.OneLine(wording(k))
  }

  function Worded(codes: seq<nat>, from: nat, wording: nat -> string): (r: seq<Replies.Reply>)
    ensures |r| == |codes|
  {
    seq(|codes|, i requires 0 <= i < |codes| => Replies.Reply(codes[i], wording(from + i)))
  }

  lemma WordedIsPlain(codes: seq<nat>, from: nat, wording: nat -> string)
    requires Plain(wording)
    ensures forall r :: r in Worded(codes, from, wording) ==> Replies.OneLine(r.msg)
  {
    var replies := Worded(codes, from, wording);
    forall r | r in replies
      ensures Replies.OneLine(r.msg)
    {
      var i :| 0 <= i < |replies| && replies[i] == r;
      assert r.msg == wording(from + i);
    }
  }

  /** The texts given before are in front, and each of the others reads as a reply, in the order of the replies. */
  ghost predicate ReadFrom(texts: seq<string>, given: seq<string>, replies: seq<nat>, from: nat,
                           wording: nat -> string)
  {
    && from <= |replies| && |texts| == |given| + |replies| - from && texts[..|given|] == given
    && forall i {:trigger replies[i]} ::
         from <= i < |replies| ==> Replies.ReadsAs(texts[|given| + i - from], replies[i], wording(i))
  }

  lemma AreRead(said: seq<Replies.Reply>, given: seq<string>, replies: seq<nat>, from: nat, wording: nat -> string)
    requires from <= |replies| && said == Worded(replies[from..], from, wording)
    ensures ReadFrom(given + Replies.Texts(said), given, replies, from, wording)
  {
    var texts := given + Replies.Texts(said);
    Replies.TextsRead(said);
    forall i {:trigger replies[i]} | from <= i < |replies|
      ensures Replies.ReadsAs(texts[|given| + i - from], replies[i], wording(i))
    {
      assert said[i - from] == Replies.Reply(replies[i], wording(i));
      assert texts[|given| + i - from] == Replies.Texts(said)[i - from];
    }
  }

  /** The texts given before, and those of the replies from a certain one on. */
  function TextsFrom(given: seq<string>, replies: seq<nat>, from: nat, wording: nat -> string): (texts: seq<string>)
    requires from <= |replies|
    ensures ReadFrom(texts, given, replies, from, wording)
  {
    AreRead(Worded(replies[from..], from, wording), given, replies, from, wording);
    given + Replies.Texts(Worded(replies[from..], from, wording))
  }

  /**
   * Gives and sends the replies of a turn. The handlers' replies are put into the output buffer here, rather than
   * one by one: nothing looks at that buffer in between.
   */
  method SendReplies(client: Client, from: nat, wording: nat -> string, ghost given: seq<string>)
    returns (sent: seq<string>, overrun: bool)
    requires Waiting(client, given) && from <= |client.replies| && Plain(wording)
    modifies client.output`head, client.output.buffer, client.output.line
    ensures if overrun then Fills(given, wording, client.output.size)
            else Waiting(client, []) &&
                 Replies.Reached(sent, TextsFrom(given, client.replies, from, wording), client.output.size)
  {
    var replies := Worded(client.replies[from..], from, wording);
    WordedIsPlain(client.replies[from..], from, wording);
    sent, overrun := Replies.RespondAndSend(client.output, replies, given);
    if overrun {
      BrimFills(given, client.replies, from, wording, client.output.size);
    }
  }

  // ---------- A new client ----------

  const GREETING: string := "FTPservU, here to serve you!"

  /** Accepts a client, and gives it the greeting. */
  method Accept(ghost rules: Rules, pathMax: nat) returns (client: Client, ghost given: seq<string>)
    requires pathMax >= 2 && Follows(rules, pathMax)
    ensures client.pathMax == pathMax && fresh(client) && fresh(client.cwd) && fresh(client.owned)
    ensures fresh(client.input) && fresh(client.input.buffer) && fresh(client.input.line) && client.input.size == 1088
    ensures fresh(client.output) && fresh(client.output.buffer) && fresh(client.output.line)
    ensures InSync(rules, client) && client.received == "" && client.log == []
    ensures given == ["220" + " " + "FTPservU, here to serve you!" + "\r\n"] && Waiting(client, given)
  {
    client := NewClient(pathMax);
    given := [Replies.Response(220, GREETING)];
    Welcome(client);
    GreetingText();
    NewIsSync(rules, client);
  }

  method Welcome(client: Client)
    requires client.Valid() && client.output.Valid() && client.output.Contents() == "" && client.output.size == 1088
    requires Apart(client)
    modifies client`replies, client.output`head, client.output.buffer
    ensures client.Valid() && client.Session() == old(client.Session()).(replies := old(client.replies) + [220])
    ensures Waiting(client, [Replies.Response(220, GREETING)])
  {
    GreetingFits(client.output.size);
    var text := Replies.FtpResponse(client.output, 220, GREETING);
    client.Greet();
  }

  lemma GreetingText()
    ensures Replies.Response(220, GREETING) == "220" + " " + GREETING + "\r\n"
  {
    Replies.DecimalThree(220);
    assert PortCodec.Decimal(220) == "220";
  }

  lemma GreetingFits(size: nat)
    requires size == 1088
    ensures var text := Replies.Response(220, GREETING);
            Replies.IsLine(text) && |text| <= size && Replies.Fitting(size, [text]) == [text]
            && Replies.Concat([text]) == text
  {
    Replies.ResponseIsLine(220, GREETING);
    ShortResponse(220, GREETING);
    FitsAlone(size, Replies.Response(220, GREETING));
  }

  lemma ShortResponse(code: nat, msg: string)
    requires code < 1000
    ensures |Replies.Response(code, msg)| <= 6 + |msg|
  {
    var tens := code / 10;
    assert |PortCodec.Decimal(tens / 10)| <= 1;
    assert |PortCodec.Decimal(tens)| <= 2;
  }

  lemma FitsAlone(size: nat, text: string)
    requires |text| <= size
    ensures Replies.Fitting(size, [text]) == [text] && Replies.Concat([text]) == text
  {
    assert Replies.Fitting(size, []) == [] && [text][..0] == [];
  }

  // ---------- A turn ----------

  /** The disconnect bit says that a QUIT stands, and the replies are what the commands so far have added. */
  lemma LogDecides(rules: Rules, client: Client)
    requires Follows(rules, client.pathMax) && InSync(rules, client)
    ensures client.state & STATE_DISCONN != 0 <==> QuitStands(client.log)
    ensures client.replies == Run(NewSession(), client.log, client.pathMax).replies
  {
    FoldIsRun(rules, NewSession(), client.log, client.pathMax);
    DisconnOverHistories(NewSession(), client.log, client.pathMax);
  }

  /** The control connection is looked at, unless a transfer is still in progress. */
  predicate Listens(state: bv32, transfer: Transfer) {
    state & STATE_DATA == 0 || !transfer.Running?
  }

  /** What a turn receives. */
  function Heard(listens: bool, arrival: Arrival, room: int): string {
    if listens && arrival.Bytes? && room > 0 then Taken(arrival, room) else ""
  }

  /** The connection ends, or there is no room to receive anything. */
  predicate Loses(listens: bool, arrival: Arrival, room: int) {
    listens && !(room > 0 && (arrival.Bytes? || arrival.WouldBlock?))
  }

  /** The control connection's part of a turn; it comes to nothing while a transfer is in progress. */
  method Listen(ghost rules: Rules, client: Client, arrival: Arrival, ghost given: seq<string>)
    returns (outcome: Outcome)
    requires Follows(rules, client.pathMax) && InSync(rules, client) && Waiting(client, given)
    requires arrival.Bytes? ==> arrival.data != ""
    modifies client, client.cwd, client.owned, client.input`head, client.input.buffer, client.input.line
    ensures Waiting(client, given)
    ensures var listens, room := old(client.state) & STATE_DATA == 0, old(client.input.Remaining());
            && client.received == old(client.received) + Heard(listens, arrival, room)
            && (outcome.Closed? <==> Loses(listens, arrival, room))
    ensures outcome.OverRead? ==> HasStray(rules, client.received)
    ensures outcome.Served? || outcome.Idle? ==>
              InSync(rules, client) && old(client.log) <= client.log && old(client.replies) <= client.replies
    ensures outcome.Served? || outcome.Idle? ==>
              (client.cwd == old(client.cwd) || fresh(client.cwd)) && fresh(client.owned - old(client.owned))
  {
    ghost var log := client.log;
    LogDecides(rules, client);
    outcome := HandleControlEvents(rules, client, arrival);
    if outcome.Served? || outcome.Idle? {
      LogDecides(rules, client);
      RepliesGrow(NewSession(), log, client.log, client.pathMax);
    }
  }

  /** Some reply, or text given before, is as long as the output buffer. */
  ghost predicate Fills(given: seq<string>, wording: nat -> string, size: nat) {
    || (exists t :: t in given && |t| == size)
    || exists code: nat, k: nat {:trigger Replies.Response(code, wording(k))} ::
         |Replies.Response(code, wording(k))| == size
  }

  lemma BrimFills(given: seq<string>, replies: seq<nat>, from: nat, wording: nat -> string, size: nat)
    requires from <= |replies| && Plain(wording) && forall t :: t in given ==> Replies.IsLine(t)
    requires Replies.BrimLine(Replies.Concat(Replies.Fitting(size, TextsFrom(given, replies, from, wording))), size)
    ensures Fills(given, wording, size)
  {
    var codes := replies[from..];
    WordedIsPlain(codes, from, wording);
    var t := Replies.BrimText(given, Worded(codes, from, wording), size);
    if t !in given {
      WordedText(codes, from, wording, t);
    }
  }

  lemma WordedText(codes: seq<nat>, from: nat, wording: nat -> string, t: string)
    requires t in Replies.Texts(Worded(codes, from, wording))
    ensures exists code: nat, k: nat {:trigger Replies.Response(code, wording(k))} ::
              t == Replies.Response(code, wording(k))
  {
    var texts := Replies.Texts(Worded(codes, from, wording));
    var i :| 0 <= i < |texts| && texts[i] == t;
    assert t == Replies.Response(codes[i], wording(from + i));
  }

  /** The turn gets as far as its replies. */
  predicate Speaks(outcome: Turn) {
    outcome.Stays? || outcome.Left? || outcome.Overrun?
  }

  /** They go out, unless one overruns the line buffer. */
  ghost predicate Answers(outcome: Turn, texts: seq<string>, sent: seq<string>, size: nat) {
    outcome.Overrun? || Replies.Reached(sent, texts, size)
  }

  /** The end of a turn: the replies go out, and a client that has quit is released. */
  method Finish(ghost rules: Rules, client: Client, from: nat, wording: nat -> string, ghost given: seq<string>)
    returns (outcome: Turn, sent: seq<string>)
    requires Follows(rules, client.pathMax) && InSync(rules, client) && Waiting(client, given)
    requires from <= |client.replies| && Plain(wording)
    modifies client.output`head, client.output.buffer, client.output.line
    ensures InSync(rules, client) && Speaks(outcome)
    ensures !outcome.Overrun? ==> Waiting(client, []) && (outcome.Left? <==> QuitStands(client.log))
    ensures Answers(outcome, TextsFrom(given, client.replies, from, wording), sent, client.output.size)
    ensures outcome.Overrun? ==> Fills(given, wording, client.output.size)
  {
    LogDecides(rules, client);
    var overrun;
    sent, overrun := SendReplies(client, from, wording, given);
    outcome := if overrun then Turn.Overrun else if client.state & STATE_DISCONN != 0 then Left else Stays;
  }

  /** The part of a turn behind the report of a transfer. */
  method Converse(ghost rules: Rules, client: Client, from: nat, arrival: Arrival, wording: nat -> string,
                  ghost given: seq<string>)
    returns (outcome: Turn, sent: seq<string>)
    requires Follows(rules, client.pathMax) && InSync(rules, client) && Waiting(client, given)
    requires (arrival.Bytes? ==> arrival.data != "") && Plain(wording) && from <= |client.replies|
    modifies client, client.cwd, client.owned, client.input`head, client.input.buffer, client.input.line
    modifies client.output`head, client.output.buffer, client.output.line
    ensures outcome.Stays? || outcome.Left? ==>
              InSync(rules, client) && Waiting(client, []) && (outcome.Left? <==> QuitStands(client.log))
    ensures var listens, room := old(client.state) & STATE_DATA == 0, old(client.input.Remaining());
            && client.received == old(client.received) + Heard(listens, arrival, room)
            && (outcome.Closed? <==> Loses(listens, arrival, room))
    ensures outcome.OverRead? ==> HasStray(rules, client.received)
    ensures outcome.Overrun? ==> Fills(given, wording, client.output.size)
    ensures Speaks(outcome) ==> old(client.log) <= client.log && old(client.replies) <= client.replies
    ensures Speaks(outcome) ==>
              Answers(outcome, TextsFrom(given, client.replies, from, wording), sent, client.output.size)
    ensures Speaks(outcome) ==>
              (client.cwd == old(client.cwd) || fresh(client.cwd)) && fresh(client.owned - old(client.owned))
  {
    var polled := Listen(rules, client, arrival, given);
    if polled.Closed? {
      return Turn.Closed, [];
    }
    if polled.OverRead? {
      return Turn.OverRead, [];
    }
    outcome, sent := Finish(rules, client, from, wording, given);
  }

  /** The transfer's part of a turn. */
  method Report(ghost rules: Rules, client: Client, transfer: Transfer, ghost given: seq<string>) returns (over: bool)
    requires Follows(rules, client.pathMax) && InSync(rules, client) && Waiting(client, given)
    modifies client`state, client`replies, client`log
    ensures InSync(rules, client) && Waiting(client, given)
    ensures old(client.log) <= client.log && old(client.replies) <= client.replies
    ensures over <==> old(client.state) & STATE_DATA != 0 && !transfer.Running?
    ensures client.state & STATE_DATA == 0 <==> Listens(old(client.state), transfer)
  {
    DataBit(client.state);
    over := ReportTransfer(rules, client, transfer);
  }

  lemma DataBit(state: bv32)
    ensures (state & !STATE_DATA) & STATE_DATA == 0
  {
  }

  /**
   * One turn of a client, given what has become of its transfer. If that is over, it is reported, and the client has
   * done with its channel; unless one is still in progress, the control connection is served; the replies go out; and
   * the client is released exactly when a QUIT stands after that.
   */
  method HandleClient(ghost rules: Rules, client: Client, transfer: Transfer, arrival: Arrival, wording: nat -> string,
                      ghost given: seq<string>)
    returns (outcome: Turn, over: bool, sent: seq<string>)
    requires Follows(rules, client.pathMax) && InSync(rules, client) && Waiting(client, given)
    requires (arrival.Bytes? ==> arrival.data != "") && Plain(wording)
    modifies client, client.cwd, client.owned, client.input`head, client.input.buffer, client.input.line
    modifies client.output`head, client.output.buffer, client.output.line
    ensures outcome.Stays? || outcome.Left? ==>
              InSync(rules, client) && Waiting(client, []) && (outcome.Left? <==> QuitStands(client.log))
    ensures var listens, room := Listens(old(client.state), transfer), old(client.input.Remaining());
            && client.received == old(client.received) + Heard(listens, arrival, room)
            && (outcome.Closed? <==> Loses(listens, arrival, room))
    ensures outcome.OverRead? ==> HasStray(rules, client.received)
    ensures outcome.Overrun? ==> Fills(given, wording, client.output.size)
    ensures Speaks(outcome) ==> old(client.log) <= client.log && old(client.replies) <= client.replies
    ensures Speaks(outcome) ==>
              Answers(outcome, TextsFrom(given, client.replies, old(|client.replies|), wording), sent,
                      client.output.size)
    ensures over <==> old(client.state) & STATE_DATA != 0 && !transfer.Running?
    ensures Speaks(outcome) ==>
              (client.cwd == old(client.cwd) || fresh(client.cwd)) && fresh(client.owned - old(client.owned))
  {
    var from := |client.replies|;
    over := Report(rules, client, transfer, given);
    assert client.owned == old(client.owned) && client.cwd == old(client.cwd);
    outcome, sent := Converse(rules, client, from, arrival, wording, given);
  }
}
