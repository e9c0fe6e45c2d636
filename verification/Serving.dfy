/** Serving a client's control connection: from received bytes to executed commands. */
module Serving {
  import opened Clients
  import opened Commands
  import opened CommandWords
  import opened ControlChannel
  import opened Ctype
  import opened Directories
  import opened Framing
  import opened IoBuffers
  import opened Sessions
  import opened Wrappers

  // ---------- What the log and the buffer say about the bytes received ----------

  function AsRequest(e: Event): Option<Request> {
    if e.Invoked? then Some(Request(e.mnemonic, e.parameter)) else None
  }

  /** The requests that were executed. */
  function Asked(log: seq<Event>): seq<Request> {
    FilterMap(log, AsRequest)
  }

  /**
   * Which requests a stream holds and what is left of it, and what events do to a session. The rules are a
   * parameter throughout, since what they say only matters where a line is executed.
   */
  datatype Rules = Rules(
    requests: string -> seq<Request>,
    rest: string -> string,
    apply: (Session, Event) -> Session,
    strays: Request -> bool)

  /** How this server reads a stream. */
  ghost predicate ReadsStreams(rules: Rules) {
    forall s {:trigger Lines(s)} {:trigger Rest(s)} ::
      rules.requests(s) == Requests(Lines(s)) && rules.rest(s) == Rest(s)
  }

  /** The rules of this server. */
  ghost predicate Follows(rules: Rules, pathMax: nat) {
    && ReadsStreams(rules)
    && (forall st, e {:trigger Apply(st, e, pathMax)} :: rules.apply(st, e) == Apply(st, e, pathMax))
    && (forall r: Request {:trigger Strays(r.mnemonic, r.parameter)} ::
          rules.strays(r) <==> Strays(r.mnemonic, r.parameter))
  }

  /** Some request received has an argument that is parsed past its terminator. */
  ghost predicate HasStray(rules: Rules, received: string) {
    exists r :: r in rules.requests(received) && rules.strays(r)
  }

  ghost function ServerRules(pathMax: nat): (rules: Rules)
    ensures Follows(rules, pathMax)
  {
    Rules(
      s => Requests(Lines(s)),
      s => Rest(s),
      (st, e) => Apply(st, e, pathMax),
      (r: Request) => Strays(r.mnemonic, r.parameter))
  }

  /** The executed requests and those still in the buffer are the requests received. */
  ghost predicate Framed(rules: Rules, received: string, contents: string, log: seq<Event>) {
    Asked(log) + rules.requests(contents) == rules.requests(received) && rules.rest(contents) == rules.rest(received)
  }

  function Fold(rules: Rules, st: Session, log: seq<Event>): Session {
    if log == [] then st else rules.apply(Fold(rules, st, log[..|log| - 1]), log[|log| - 1])
  }

  /** The session is what the log makes of a new one. */
  ghost predicate Traced(rules: Rules, st: Session, log: seq<Event>) {
    History(log) && Texts(log) && st == Fold(rules, NewSession(), log)
  }

  lemma {:induction false} FoldIsRun(rules: Rules, st: Session, log: seq<Event>, pathMax: nat)
    requires Follows(rules, pathMax)
    ensures Fold(rules, st, log) == Run(st, log, pathMax)
  {
    if log != [] {
      FoldIsRun(rules, st, log[..|log| - 1], pathMax);
    }
  }

  /** A new client has been greeted. */
  function NewSession(): Session {
    Session(STATE_NONE, [], [220])
  }

  lemma NoLines(s: string)
    requires '\n' !in s
    ensures Lines(s) == [] && Rest(s) == s
  {
    assert s[..|s|] == s;
    EolIs(s, |s|);
  }

  lemma RequestsConcat(a: string, b: string)
    ensures Requests(Lines(a + b)) == Requests(Lines(a)) + Requests(Lines(Rest(a) + b))
    ensures Rest(a + b) == Rest(Rest(a) + b)
  {
    LinesConcat(a, b);
    FilterMapConcat(Lines(a), Lines(Rest(a) + b), Parse);
  }

  /** Receiving more when only an unfinished line is buffered. */
  lemma FramedReceive(rules: Rules, received: string, contents: string, log: seq<Event>, taken: string)
    requires ReadsStreams(rules) && Framed(rules, received, contents, log) && '\n' !in contents
    ensures Framed(rules, received + taken, contents + taken, log)
  {
    NoLines(contents);
    RequestsConcat(received, taken);
    assert Asked(log) + [] == Asked(log);
  }

  /** One line of the log's growth. */
  predicate Grown(before: seq<Event>, after: seq<Event>, r: Option<Request>) {
    if r.None? then after == before
    else
      && |after| == |before| + 1 && after[..|before|] == before
      && IsCommand(after[|before|], r.value.mnemonic, r.value.parameter)
  }

  lemma GrownAsked(before: seq<Event>, after: seq<Event>, r: Option<Request>)
    requires Grown(before, after, r)
    ensures Asked(after) == Asked(before) + AsList(r)
  {
    if r.Some? {
      assert after == before + [after[|before|]];
      FilterMapStep(before, after[|before|], AsRequest);
    } else {
      assert Asked(before) + [] == Asked(before);
    }
  }

  /** The first line of `contents`, executed or ignored as `r` says, comes before the rest. */
  ghost predicate FirstIs(rules: Rules, contents: string, r: Option<Request>) {
    && Eol(contents) < |contents|
    && rules.requests(contents) == AsList(r) + rules.requests(contents[Eol(contents) + 1..])
    && rules.rest(contents) == rules.rest(contents[Eol(contents) + 1..])
  }

  /** Whatever `f` makes of lines, if that is how the rules read the stream. */
  lemma FirstIsBy(rules: Rules, contents: string, line: string, more: string, f: string -> Option<Request>)
    requires Eol(contents) < |contents| && line == LineText(contents, false) && more == contents[Eol(contents) + 1..]
    requires rules.requests(contents) == FilterMap(Lines(contents), f) && rules.rest(contents) == Rest(contents)
    requires rules.requests(more) == FilterMap(Lines(more), f) && rules.rest(more) == Rest(more)
    ensures FirstIs(rules, contents, f(line))
  {
    FirstMapped(contents, line, more, f);
  }

  /** How the rules read one stream. */
  lemma ReadsBy(rules: Rules, s: string)
    requires ReadsStreams(rules)
    ensures rules.requests(s) == FilterMap(Lines(s), Parse) && rules.rest(s) == Rest(s)
  {
    assert Requests(Lines(s)) == FilterMap(Lines(s), Parse);
  }

  lemma FirstParses(rules: Rules, contents: string, line: string, more: string)
    requires ReadsStreams(rules) && Eol(contents) < |contents|
    requires line == LineText(contents, false) && more == contents[Eol(contents) + 1..]
    ensures FirstIs(rules, contents, Parse(line))
  {
    ReadsBy(rules, contents);
    ReadsBy(rules, more);
    FirstIsBy(rules, contents, line, more, Parse);
  }

  /** Taking the first line off the buffer and executing it. */
  lemma FramedLine(rules: Rules, received: string, contents: string, log: seq<Event>, log': seq<Event>,
                   r: Option<Request>)
    requires Framed(rules, received, contents, log) && FirstIs(rules, contents, r) && Grown(log, log', r)
    ensures Framed(rules, received, contents[Eol(contents) + 1..], log')
  {
    GrownAsked(log, log', r);
    Associate(Asked(log), AsList(r), rules.requests(contents[Eol(contents) + 1..]));
  }

  /** The first request in the buffer is one of those received. */
  lemma FramedStray(rules: Rules, received: string, contents: string, log: seq<Event>, r: Option<Request>)
    requires Framed(rules, received, contents, log) && FirstIs(rules, contents, r)
    ensures r.Some? && rules.strays(r.value) ==> HasStray(rules, received)
  {
    if r.Some? {
      assert (AsList(r) + rules.requests(contents[Eol(contents) + 1..]))[0] == r.value;
      assert (Asked(log) + rules.requests(contents))[|Asked(log)|] == r.value;
    }
  }

  lemma TracedStep(rules: Rules, st: Session, st': Session, log: seq<Event>, log': seq<Event>, r: Option<Request>)
    requires Traced(rules, st, log) && Grown(log, log', r) && (r.Some? ==> NUL !in r.value.parameter)
    requires st' == if r.None? then st else rules.apply(st, log'[|log|])
    ensures Traced(rules, st', log')
  {
    if r.Some? {
      assert log' == log + [log'[|log|]];
      assert log'[..|log'| - 1] == log;
    }
  }

  // ---------- The client between polls ----------

  /** The client's parts are where they belong, and its buffer has room for one more byte. */
  ghost predicate Sound(rules: Rules, client: Client)
    reads client, client.cwd, client.cwd.nodes
    reads client.input, client.input.buffer
  {
    && client.Valid() && client.input.Valid() && client.input.head < client.input.size
    && Framed(rules, client.received, client.input.Contents(), client.log)
    && Traced(rules, client.Session(), client.log)
  }

  /** Between polls, no complete line is left in the buffer. */
  ghost predicate InSync(rules: Rules, client: Client)
    reads client, client.cwd, client.cwd.nodes
    reads client.input, client.input.buffer
  {
    Sound(rules, client) && '\n' !in client.input.Contents()
  }

  /** The client's two buffers share nothing. */
  predicate Apart(client: Client) {
    && client.input != client.output
    && {client.input.buffer, client.input.line} !! {client.output.buffer, client.output.line}
  }

  /** A new client, before it is greeted. */
  method NewClient(pathMax: nat) returns (client: Client)
    requires pathMax >= 2
    ensures client.pathMax == pathMax && fresh(client) && fresh(client.cwd) && fresh(client.owned)
    ensures fresh(client.input) && fresh(client.input.buffer) && fresh(client.input.line) && client.input.size == 1088
    ensures fresh(client.output) && fresh(client.output.buffer) && fresh(client.output.line)
    ensures client.output.size == 1088 && client.output.Valid() && client.output.Contents() == "" && Apart(client)
    ensures client.Valid() && client.Session() == Sessions.Session(STATE_NONE, [], [])
    ensures client.input.Valid() && client.input.Contents() == "" && client.received == "" && client.log == []
  {
    var input := new IoBuffer(1024);
    var output := new IoBuffer(1024);
    client := new Client(input, output, pathMax);
  }

  /** Having received nothing, a client that has been greeted is in step with that. */
  lemma NewIsSync(rules: Rules, client: Client)
    requires Follows(rules, client.pathMax)
    requires client.Valid() && client.input.Valid() && client.input.Contents() == "" && client.received == ""
    requires client.log == [] && client.Session() == NewSession()
    ensures InSync(rules, client)
  {
    NoLines("");
  }

  // ---------- Executing one line ----------

  /** Invokes a command, which is what the rules say of the event it leaves in the log. */
  method Invoke(ghost rules: Rules, client: Client, mnemonic: string, parameter: string, outcome: bool)
    returns (overRead: bool)
    requires Follows(rules, client.pathMax) && client.Valid() && NUL !in parameter
    modifies client`state, client`cwd, client`replies, client`log, client`owned, client.cwd, client.owned
    ensures overRead ==> rules.strays(Request(mnemonic, parameter))
    ensures !overRead ==> client.Valid() && |client.log| == |old(client.log)| + 1
    ensures !overRead ==> client.log[..|old(client.log)|] == old(client.log)
    ensures !overRead ==> IsCommand(client.log[|old(client.log)|], mnemonic, parameter)
    ensures !overRead ==> client.Session() == rules.apply(old(client.Session()), client.log[|old(client.log)|])
    ensures !overRead ==>
      (client.cwd == old(client.cwd) || fresh(client.cwd)) && fresh(client.owned - old(client.owned))
  {
    ghost var e := Invoked(mnemonic, Lookup(mnemonic), parameter, outcome);
    RulesByWord(rules, client.Session(), e, client.pathMax);
    overRead := client.CommandInvoke(mnemonic, parameter, outcome);
  }

  lemma RulesByWord(rules: Rules, st: Session, e: Event, pathMax: nat)
    requires Follows(rules, pathMax) && e.Invoked? && e.found == Lookup(e.mnemonic)
    requires Directory(st.cwd) && pathMax >= 2
    ensures rules.apply(st, e) == ByWord(e.mnemonic, st, e.parameter, e.outcome, pathMax)
    ensures rules.strays(Request(e.mnemonic, e.parameter)) <==> e.mnemonic == "CWD" && OverReads(e.parameter)
  {
    ApplyByWord(st, e, pathMax);
    var r := Request(e.mnemonic, e.parameter);
    assert rules.strays(r) <==> Strays(r.mnemonic, r.parameter);
  }

  /** Executes the command in a line, if it is one; the mnemonic is put in upper case in place. */
  method ProcessCommand(ghost rules: Rules, client: Client, outcome: bool, ghost s: string) returns (overRead: bool)
    requires Follows(rules, client.pathMax) && client.Valid() && HoldsAt(client.input.line, 0, s)
    requires Traced(rules, client.Session(), client.log)
    modifies client`state, client`cwd, client`replies, client`log, client`owned, client.cwd, client.owned
    modifies client.input.line
    ensures !overRead ==> client.Valid() && Traced(rules, client.Session(), client.log)
    ensures !overRead ==> Grown(old(client.log), client.log, ParseText(s))
    ensures overRead ==> ParseText(s).Some? && rules.strays(ParseText(s).value)
    ensures !overRead ==>
      (client.cwd == old(client.cwd) || fresh(client.cwd)) && fresh(client.owned - old(client.owned))
  {
    var line := client.input.line;
    var mnemonic, command := GetMnemonic(line, s);
    if mnemonic.None? {
      return false;
    }
    ghost var r := ParseText(s).value;
    var name, parameter := ReadCommand(line, mnemonic.value, command, s);
    ghost var st, log := client.Session(), client.log;
    overRead := Invoke(rules, client, name, parameter, outcome);
    if !overRead {
      TracedStep(rules, st, client.Session(), log, client.log, ParseText(s));
    }
  }

  lemma TextBehind(a: array<char>, k: nat, at: nat, text: string)
    requires k <= at && HoldsAt(a, at, text)
    ensures a[k..][at - k..at - k + |text|] == text && a[k..][at - k + |text|] == NUL
  {
  }

  lemma HoldsBehind(a: array<char>, k: nat, at: nat, text: string, behind: string)
    requires k <= at && at + |text| < a.Length && a[k..] == behind && NUL !in text
    requires behind[at - k..at - k + |text|] == text && behind[at - k + |text|] == NUL
    ensures HoldsAt(a, at, text)
  {
  }

  /** The two C strings of a located command, the first put in upper case in place. */
  method ReadTwo(line: array<char>, mnemonic: nat, command: nat, ghost word: string, ghost after: string)
    returns (name: string, parameter: string)
    requires HoldsAt(line, mnemonic, word) && AllAlpha(word) && HoldsAt(line, command, after)
    requires mnemonic + |word| <= command
    modifies line
    ensures name == Upper(word) && parameter == after
  {
    ghost var behind := line[mnemonic + |word|..];
    TextBehind(line, mnemonic + |word|, command, after);
    UpperInPlace(line, mnemonic, word);
    HoldsBehind(line, mnemonic + |word|, command, after, behind);
    name := TextAt(line, mnemonic, Upper(word));
    parameter := TextAt(line, command, after);
  }

  method ReadCommand(line: array<char>, mnemonic: nat, command: nat, ghost s: string)
    returns (name: string, parameter: string)
    requires ParseText(s).Some? && Located(line, s, mnemonic, command)
    modifies line
    ensures Request(name, parameter) == ParseText(s).value && NUL !in parameter
  {
    ghost var t := s[SpaceLen(s)..];
    name, parameter := ReadTwo(line, mnemonic, command, t[..WordLen(t)], AfterWord(t[WordLen(t)..]));
  }

  // ---------- One poll ----------

  /** What a poll comes to: served, nothing to do, the client is gone, or an argument was read past its end. */
  datatype Outcome = Served | Idle | Closed | OverRead

  lemma LineHolds(line: array<char>, length: nat, text: string)
    requires length < line.Length && line[..length] == text && line[length] == NUL
    ensures HoldsAt(line, 0, CString(text))
  {
    var s := CString(text);
    assert line[0..|s|] == line[..length][..|s|];
    assert |s| < |text| ==> line[|s|] == text[|s|];
  }

  /** Executes the line that has been taken off the buffer. */
  method ProcessLine(ghost rules: Rules, client: Client, length: nat, ghost contents: string)
    returns (overRead: bool, ghost r: Option<Request>)
    requires Follows(rules, client.pathMax) && client.Valid() && Traced(rules, client.Session(), client.log)
    requires client.input.TookLine(contents, false, length)
    modifies client`state, client`cwd, client`replies, client`log, client`owned, client.cwd, client.owned
    modifies client.input.line
    ensures FirstIs(rules, contents, r)
    ensures !overRead ==> client.Valid() && Traced(rules, client.Session(), client.log)
    ensures !overRead ==> Grown(old(client.log), client.log, r)
    ensures overRead ==> r.Some? && rules.strays(r.value)
    ensures !overRead ==>
      (client.cwd == old(client.cwd) || fresh(client.cwd)) && fresh(client.owned - old(client.owned))
  {
    ghost var text := LineText(contents, false);
    LineHolds(client.input.line, length, text);
    FirstParses(rules, contents, text, contents[Eol(contents) + 1..]);
    r := Parse(text);
    var outcome: bool := *;
    overRead := ProcessCommand(rules, client, outcome, CString(text));
  }

  /** Executes the line that has been taken off the buffer, and so catches up with what was taken. */
  method ServeTaken(ghost rules: Rules, client: Client, length: nat, ghost contents: string) returns (overRead: bool)
    requires Follows(rules, client.pathMax) && client.Valid() && Traced(rules, client.Session(), client.log)
    requires client.input.TookLine(contents, false, length) && client.input.head < client.input.size
    requires Framed(rules, client.received, contents, client.log)
    modifies client`state, client`cwd, client`replies, client`log, client`owned, client.cwd, client.owned
    modifies client.input.line
    ensures !overRead ==> Sound(rules, client) && old(client.log) <= client.log
    ensures !overRead ==>
      (client.cwd == old(client.cwd) || fresh(client.cwd)) && fresh(client.owned - old(client.owned))
    ensures overRead ==> HasStray(rules, client.received)
  {
    ghost var log := client.log;
    ghost var r;
    overRead, r := ProcessLine(rules, client, length, contents);
    FramedStray(rules, client.received, contents, log, r);
    if !overRead {
      FramedLine(rules, client.received, contents, log, client.log, r);
    }
  }

  /** Takes the next line off the buffer, if there is one. */
  method TakeLine(ghost rules: Rules, client: Client) returns (more: bool, length: nat)
    requires Sound(rules, client)
    modifies client.input`head, client.input.buffer, client.input.line
    ensures more ==> client.input.TookLine(old(client.input.Contents()), false, length)
    ensures more ==> client.input.head < old(client.input.head)
    ensures more ==> client.Valid() && Traced(rules, client.Session(), client.log)
    ensures !more ==> InSync(rules, client) && client.input.Contents() == old(client.input.Contents())
  {
    ghost var contents := client.input.Contents();
    length := 0;
    var next := client.input.Next(false);
    if next.NoLine? {
      assert contents[..|contents|] == contents;
      return false, 0;
    }
    return true, next.length;
  }

  /** Takes the next line off the buffer, if there is one, and executes it. */
  method ServeLine(ghost rules: Rules, client: Client) returns (more: bool, overRead: bool)
    requires Follows(rules, client.pathMax) && Sound(rules, client)
    modifies client`state, client`cwd, client`replies, client`log, client`owned, client.cwd, client.owned
    modifies client.input`head, client.input.buffer, client.input.line
    ensures !more ==> !overRead && InSync(rules, client)
    ensures !overRead ==> Sound(rules, client) && old(client.log) <= client.log
    ensures more && !overRead ==> client.input.head < old(client.input.head)
    ensures !overRead ==>
      (client.cwd == old(client.cwd) || fresh(client.cwd)) && fresh(client.owned - old(client.owned))
    ensures overRead ==> HasStray(rules, client.received)
  {
    ghost var contents := client.input.Contents();
    var length;
    more, length := TakeLine(rules, client);
    overRead := false;
    if more {
      overRead := ServeTaken(rules, client, length, contents);
    }
  }

  /** Executes every complete line in the buffer. */
  method ServeLines(ghost rules: Rules, client: Client) returns (overRead: bool)
    requires Follows(rules, client.pathMax) && Sound(rules, client)
    modifies client`state, client`cwd, client`replies, client`log, client`owned, client.cwd, client.owned
    modifies client.input`head, client.input.buffer, client.input.line
    ensures !overRead ==> InSync(rules, client) && old(client.log) <= client.log
    ensures !overRead ==>
      (client.cwd == old(client.cwd) || fresh(client.cwd)) && fresh(client.owned - old(client.owned))
    ensures overRead ==> HasStray(rules, client.received)
  {
    var more := true;
    overRead := false;
    while more && !overRead
      invariant !overRead ==> Sound(rules, client) && (!more ==> InSync(rules, client))
      invariant !overRead ==> old(client.log) <= client.log
      invariant overRead ==> HasStray(rules, client.received)
      invariant !overRead ==>
        (client.cwd == old(client.cwd) || fresh(client.cwd)) && fresh(client.owned - old(client.owned))
      decreases !overRead, more, client.input.head
    {
      more, overRead := ServeLine(rules, client);
    }
  }

  /** Receives what the socket has to offer. */
  method Receive(ghost rules: Rules, client: Client, arrival: Arrival) returns (r: ReadResult)
    requires Follows(rules, client.pathMax) && InSync(rules, client) && (arrival.Bytes? ==> arrival.data != "")
    modifies client`received, client.input`head, client.input.buffer
    ensures Sound(rules, client) && (!r.Read? ==> InSync(rules, client))
    ensures client.received ==
      old(client.received) + if r.Read? then Taken(arrival, old(client.input.Remaining())) else ""
    ensures r.Read? <==> old(client.input.Remaining()) > 0 && arrival.Bytes?
    ensures r.Again? <==> old(client.input.Remaining()) > 0 && arrival.WouldBlock?
  {
    ghost var received, contents, room := client.received, client.input.Contents(), client.input.Remaining();
    r := NetworkReadBuffer(client.input, arrival);
    if r.Read? {
      FramedReceive(rules, received, contents, client.log, Taken(arrival, room));
      NoteReceived(rules, client, Taken(arrival, room));
    } else {
      assert client.input.Contents() == contents;
    }
  }

  ghost method NoteReceived(rules: Rules, client: Client, taken: string)
    requires client.Valid() && client.input.Valid() && client.input.head < client.input.size
    requires Framed(rules, client.received + taken, client.input.Contents(), client.log)
    requires Traced(rules, client.Session(), client.log)
    modifies client`received
    ensures Sound(rules, client) && client.received == old(client.received) + taken
  {
    client.received := client.received + taken;
  }

  /**
   * One poll of the control connection: unless a transfer is in progress, receives what there is and executes
   * every line that is complete. The client is closed when the connection is, and when its buffer is full.
   */
  method HandleControlEvents(ghost rules: Rules, client: Client, arrival: Arrival) returns (outcome: Outcome)
    requires Follows(rules, client.pathMax) && InSync(rules, client) && (arrival.Bytes? ==> arrival.data != "")
    modifies client, client.cwd, client.owned, client.input`head, client.input.buffer, client.input.line
    ensures outcome.Served? || outcome.Idle? ==> InSync(rules, client) && old(client.log) <= client.log
    ensures client.received == old(client.received) +
              if outcome.Served? || outcome.OverRead? then Taken(arrival, old(client.input.Remaining())) else ""
    ensures outcome.Served? || outcome.OverRead? <==>
            old(client.state) & STATE_DATA == 0 && arrival.Bytes? && old(client.input.Remaining()) > 0
    ensures outcome.Idle? <==>
            old(client.state) & STATE_DATA != 0 || (arrival.WouldBlock? && old(client.input.Remaining()) > 0)
    ensures outcome.Served? || outcome.Idle? ==>
              (client.cwd == old(client.cwd) || fresh(client.cwd)) && fresh(client.owned - old(client.owned))
    ensures outcome.OverRead? ==> HasStray(rules, client.received)
  {
    if client.state & STATE_DATA != 0 {
      return Idle;
    }
    var nread := Receive(rules, client, arrival);
    if nread.Again? {
      return Idle;
    }
    if !nread.Read? {
      return Closed;
    }
    var overRead := ServeLines(rules, client);
    outcome := if overRead then OverRead else Served;
  }
}
