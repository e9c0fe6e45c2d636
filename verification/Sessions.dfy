/** What a client's commands do to its session, and what holds over every history of them. */
module Sessions {
  import opened Commands
  import opened PathNames
  import opened PathList
  import opened PathText
  import opened PathPrint
  import opened Wrappers

  const STATE_NONE: bv32 := 0
  const STATE_USER: bv32 := 1
  const STATE_AUTH: bv32 := 2
  const STATE_DATA: bv32 := 8
  const STATE_DISCONN: bv32 := 0x10

  predicate Authenticated(state: bv32) {
    state >= STATE_AUTH
  }

  /** The state word, the components of the working directory, and the codes of the replies so far. */
  datatype Session = Session(state: bv32, cwd: seq<string>, replies: seq<nat>)

  /**
   * A command as it is invoked, with the table entry found for it, or the end of a data transfer. `outcome`
   * is what the world answered: whether the directory exists for CWD, whether the data connection took the
   * listing for LIST, whether the address was accepted for PORT; `closed` says whether the transfer was
   * complete, if there was a channel at all.
   */
  datatype Event =
    | Invoked(mnemonic: string, found: Option<Command>, parameter: string, outcome: bool)
    | TransferOver(channel: bool, closed: bool)

  /** Every command was looked up in the table. */
  ghost predicate History(h: seq<Event>) {
    forall i {:trigger h[i]} :: 0 <= i < |h| && h[i].Invoked? ==> h[i].found == Lookup(h[i].mnemonic)
  }

  /** A command's entry says whether it needs a login as the table does. */
  predicate Guarded(found: Option<Command>) {
    found.Some? ==> (!found.value.authentication <==> OpenHandler(found.value.handler))
  }

  /** The entry for a word is the one that the login depends on, if it is such a word. */
  predicate Agrees(word: string, found: Option<Command>) {
    && (Handles(found, User) <==> word == "USER") && (Handles(found, Pass) <==> word == "PASS")
    && (Handles(found, Quit) <==> word == "QUIT") && (Handles(found, Reinitialize) <==> word == "REIN")
  }

  predicate GuardedHistory(h: seq<Event>) {
    forall i {:trigger h[i]} :: 0 <= i < |h| && h[i].Invoked? ==>
      Guarded(h[i].found) && Agrees(h[i].mnemonic, h[i].found)
  }

  lemma HistoryIsGuarded(h: seq<Event>)
    requires History(h)
    ensures GuardedHistory(h)
  {
    forall i | 0 <= i < |h| && h[i].Invoked?
      ensures Guarded(h[i].found) && Agrees(h[i].mnemonic, h[i].found)
    {
      OpenHandlers(h[i].mnemonic);
      HandlersByWord(h[i].mnemonic);
    }
  }

  // ---------- What one command does ----------

  /** The path a CWD argument leads to: the argument resolved on its own, then merged. */
  ghost function Target(cwd: seq<string>, parameter: string): seq<string> {
    Merged(cwd, parameter != "" && parameter[0] == '/', Normalize(ParsedNames(parameter)))
  }

  /** A directory can be entered when it is the root, or its text fits and the file system has it. */
  predicate CanChdir(target: seq<string>, outcome: bool, pathMax: nat) {
    target == [] || (|Printed(true, target)| + 1 < pathMax && outcome)
  }

  ghost predicate Chdirs(cwd: seq<string>, parameter: string, outcome: bool, pathMax: nat) {
    parameter != "" && CanChdir(Target(cwd, parameter), outcome, pathMax)
  }

  /** Parsing this argument reads past its terminator. */
  ghost predicate OverReads(parameter: string) {
    TrailingSlash(parameter) && !Rejected(parameter)
  }

  /** The command's argument is parsed past its terminator. */
  ghost predicate Strays(word: string, parameter: string) {
    word == "CWD" && OverReads(parameter)
  }

  /** The state word after a handler. */
  function StateAfter(handler: Handler, state: bv32): bv32 {
    match handler
    case User => STATE_USER
    case Pass => if state == STATE_USER then STATE_AUTH else state
    case Quit => state | STATE_DISCONN
    case Reinitialize => STATE_NONE
    case List => state | STATE_DATA
    case _ => state
  }

  /** The working directory after a handler. */
  ghost function CwdAfter(handler: Handler, cwd: seq<string>, parameter: string, outcome: bool,
                          pathMax: nat): seq<string> {
    match handler
    case Cwd => if Chdirs(cwd, parameter, outcome, pathMax) then Target(cwd, parameter) else cwd
    case Cdup => Popped(cwd, 1)
    case _ => cwd
  }

  /** The codes a handler replies with. */
  ghost function Codes(handler: Handler, st: Session, parameter: string, outcome: bool, pathMax: nat): seq<nat> {
    match handler
    case User => [331]
    case Pass => [if st.state == STATE_NONE then 332 else if st.state == STATE_USER then 230 else 503]
    case Quit => [221]
    case Reinitialize => [220]
    case Noop => [200]
    case List => if outcome then [] else [425]
    case Pwd => [257]
    case Cwd => [if Chdirs(st.cwd, parameter, outcome, pathMax) then 250 else 550]
    case Cdup => [250]
    case Passive => [227]
    case Port => if outcome then [] else [500]
    case System => [215]
    case Allocate => [202]
    case Stub => []
  }

  /** A command is turned away when it is unknown, or needs a login that has not happened. */
  predicate Reaches(found: Option<Command>, state: bv32) {
    found.Some? && (found.value.authentication ==> Authenticated(state))
  }

  function StateAfterCommand(found: Option<Command>, state: bv32): bv32 {
    if Reaches(found, state) then StateAfter(found.value.handler, state) else state
  }

  ghost function Respond(found: Option<Command>, st: Session, parameter: string, outcome: bool, pathMax: nat): Session {
    Session(
      StateAfterCommand(found, st.state),
      if Reaches(found, st.state) then CwdAfter(found.value.handler, st.cwd, parameter, outcome, pathMax) else st.cwd,
      st.replies +
      if Reaches(found, st.state) then Codes(found.value.handler, st, parameter, outcome, pathMax)
      else [if found.None? && Authenticated(st.state) then 502 else 530])
  }

  /** The state word after an event. */
  function NextState(state: bv32, e: Event): bv32 {
    match e
    case Invoked(_, found, _, _) => StateAfterCommand(found, state)
    case TransferOver(_, _) => state & !STATE_DATA
  }

  /** The end of a transfer is reported if there was a channel. */
  function AfterTransfer(st: Session, channel: bool, closed: bool): Session {
    Session(st.state & !STATE_DATA, st.cwd, st.replies + EndCodes(channel, closed))
  }

  function EndCodes(channel: bool, closed: bool): seq<nat> {
    if !channel then [] else [if closed then 226 else 420]
  }

  ghost function Apply(st: Session, e: Event, pathMax: nat): Session {
    match e
    case Invoked(_, found, parameter, outcome) => Respond(found, st, parameter, outcome, pathMax)
    case TransferOver(channel, closed) => AfterTransfer(st, channel, closed)
  }

  /** The session after a history. */
  ghost function Run(st: Session, h: seq<Event>, pathMax: nat): Session {
    if h == [] then st else Apply(Run(st, h[..|h| - 1], pathMax), h[|h| - 1], pathMax)
  }

  // ---------- Login over whole histories ----------

  predicate Is(e: Event, word: string) {
    e.Invoked? && e.mnemonic == word
  }

  /** USER and REIN start over. */
  predicate Resets(e: Event) {
    Is(e, "USER") || Is(e, "REIN")
  }

  predicate NoResetAfter(h: seq<Event>, i: nat) {
    forall k {:trigger h[k]} :: i < k < |h| ==> !Resets(h[k])
  }

  /** A USER that nothing has started over. */
  ghost predicate UserStands(h: seq<Event>) {
    exists i: nat {:trigger h[i]} :: i < |h| && Is(h[i], "USER") && NoResetAfter(h, i)
  }

  /** A USER that nothing has started over, and a PASS after it. */
  ghost predicate LoginStands(h: seq<Event>) {
    exists i: nat, j: nat {:trigger h[i], h[j]} ::
      i < j < |h| && Is(h[i], "USER") && Is(h[j], "PASS") && NoResetAfter(h, i)
  }

  /** A QUIT that nothing has started over. */
  ghost predicate QuitStands(h: seq<Event>) {
    exists i: nat {:trigger h[i]} :: i < |h| && Is(h[i], "QUIT") && NoResetAfter(h, i)
  }

  lemma NoResetStep(h: seq<Event>, e: Event, i: nat)
    requires i < |h|
    ensures NoResetAfter(h + [e], i) <==> NoResetAfter(h, i) && !Resets(e)
  {
    var more := h + [e];
    assert more[|h|] == e;
    assert forall k :: i < k < |h| ==> more[k] == h[k];
  }

  lemma UserStep(h: seq<Event>, e: Event)
    ensures UserStands(h + [e]) <==> if Resets(e) then Is(e, "USER") else UserStands(h)
  {
    var more := h + [e];
    assert more[|h|] == e && NoResetAfter(more, |h|);
    forall i: nat | i < |h|
      ensures more[i] == h[i] && (NoResetAfter(more, i) <==> NoResetAfter(h, i) && !Resets(e))
    {
      NoResetStep(h, e, i);
    }
  }

  lemma QuitStep(h: seq<Event>, e: Event)
    ensures QuitStands(h + [e]) <==> if Resets(e) then false else Is(e, "QUIT") || QuitStands(h)
  {
    var more := h + [e];
    assert more[|h|] == e && NoResetAfter(more, |h|);
    forall i: nat | i < |h|
      ensures more[i] == h[i] && (NoResetAfter(more, i) <==> NoResetAfter(h, i) && !Resets(e))
    {
      NoResetStep(h, e, i);
    }
  }

  lemma LoginStep(h: seq<Event>, e: Event)
    ensures LoginStands(h + [e]) <==> !Resets(e) && (LoginStands(h) || (Is(e, "PASS") && UserStands(h)))
  {
    var more := h + [e];
    assert more[|h|] == e;
    forall i: nat | i < |h|
      ensures more[i] == h[i] && (NoResetAfter(more, i) <==> NoResetAfter(h, i) && !Resets(e))
    {
      NoResetStep(h, e, i);
    }
    if LoginStands(h + [e]) {
      var i: nat, j: nat :| i < j < |more| && Is(more[i], "USER") && Is(more[j], "PASS") && NoResetAfter(more, i);
      assert h[i] == more[i];
      if j < |h| {
        assert h[j] == more[j];
      }
    }
  }

  /** The state word that a history with these standing events leads to. */
  predicate Shows(state: bv32, user: bool, login: bool, quit: bool) {
    if quit then state & STATE_DISCONN != 0
    else if login then state == STATE_AUTH || state == STATE_AUTH | STATE_DATA
    else if user then state == STATE_USER
    else state == STATE_NONE
  }

  ghost predicate Reflects(state: bv32, h: seq<Event>) {
    Shows(state, UserStands(h), LoginStands(h), QuitStands(h))
  }

  /** The bit operations of the handlers, on every state that can arise. */
  lemma StateBits(state: bv32)
    ensures state & STATE_DISCONN != 0 ==> Authenticated(state)
    ensures (state | STATE_DISCONN) & STATE_DISCONN != 0
    ensures state & STATE_DISCONN != 0 ==>
      (state | STATE_DATA) & STATE_DISCONN != 0 && (state & !STATE_DATA) & STATE_DISCONN != 0
    ensures state == STATE_AUTH || state == STATE_AUTH | STATE_DATA ==>
              state | STATE_DATA == STATE_AUTH | STATE_DATA && state & !STATE_DATA == STATE_AUTH && Authenticated(state)
    ensures state == STATE_USER || state == STATE_NONE ==> state & !STATE_DATA == state && !Authenticated(state)
    ensures state == STATE_USER || state == STATE_NONE ==> state & STATE_DISCONN == 0
    ensures state == STATE_AUTH || state == STATE_AUTH | STATE_DATA ==> state & STATE_DISCONN == 0
  {
  }

  lemma {:induction false} StateReflects(start: Session, h: seq<Event>, pathMax: nat)
    requires start.state == STATE_NONE && GuardedHistory(h)
    ensures Reflects(Run(start, h, pathMax).state, h)
  {
    if h == [] {
    } else {
      var init, e := h[..|h| - 1], h[|h| - 1];
      StateReflects(start, init, pathMax);
      assert h == init + [e];
      ReflectsStep(Run(start, init, pathMax).state, init, e);
    }
  }

  /** How a command changes the state word. */
  predicate Changes(found: Option<Command>, before: bv32, after: bv32) {
    if Handles(found, User) then after == STATE_USER
    else if Handles(found, Reinitialize) then after == STATE_NONE
    else if Handles(found, Quit) then after == before | STATE_DISCONN
    else if Handles(found, Pass) then after == if before == STATE_USER then STATE_AUTH else before
    else after == before || (Authenticated(before) && after == before | STATE_DATA)
  }

  lemma StateChanges(found: Option<Command>, state: bv32)
    requires Guarded(found)
    ensures Changes(found, state, StateAfterCommand(found, state))
  {
  }

  lemma ShowsStep(found: Option<Command>, before: bv32, after: bv32, user: bool, login: bool, quit: bool)
    requires Changes(found, before, after) && Shows(before, user, login, quit) && (login ==> user)
    ensures var resets := Handles(found, User) || Handles(found, Reinitialize);
            Shows(after, if resets then Handles(found, User) else user,
                  !resets && (login || (Handles(found, Pass) && user)),
                  !resets && (Handles(found, Quit) || quit))
  {
    StateBits(before);
  }

  /** The end of a transfer changes nothing about the login. */
  lemma ShowsOver(before: bv32, user: bool, login: bool, quit: bool)
    requires Shows(before, user, login, quit)
    ensures Shows(before & !STATE_DATA, user, login, quit)
  {
    StateBits(before);
  }

  lemma LoginNeedsUser(h: seq<Event>)
    ensures LoginStands(h) ==> UserStands(h)
  {
  }

  lemma ShowsCommand(found: Option<Command>, state: bv32, user: bool, login: bool, quit: bool)
    requires Guarded(found) && Shows(state, user, login, quit) && (login ==> user)
    ensures var resets := Handles(found, User) || Handles(found, Reinitialize);
            Shows(StateAfterCommand(found, state), if resets then Handles(found, User) else user,
                  !resets && (login || (Handles(found, Pass) && user)),
                  !resets && (Handles(found, Quit) || quit))
  {
    StateChanges(found, state);
    ShowsStep(found, state, StateAfterCommand(found, state), user, login, quit);
  }

  lemma ShowsAfter(state: bv32, e: Event, user: bool, login: bool, quit: bool)
    requires Shows(state, user, login, quit) && (login ==> user)
    requires e.Invoked? ==> Guarded(e.found) && Agrees(e.mnemonic, e.found)
    ensures Shows(NextState(state, e),
                  if Resets(e) then Is(e, "USER") else user,
                  !Resets(e) && (login || (Is(e, "PASS") && user)),
                  if Resets(e) then false else Is(e, "QUIT") || quit)
  {
    if e.Invoked? {
      ShowsCommand(e.found, state, user, login, quit);
    } else {
      ShowsOver(state, user, login, quit);
    }
  }

  lemma ReflectsStep(state: bv32, h: seq<Event>, e: Event)
    requires Reflects(state, h) && (e.Invoked? ==> Guarded(e.found) && Agrees(e.mnemonic, e.found))
    ensures Reflects(NextState(state, e), h + [e])
  {
    LoginNeedsUser(h);
    ShowsAfter(state, e, UserStands(h), LoginStands(h), QuitStands(h));
    UserStep(h, e);
    QuitStep(h, e);
    LoginStep(h, e);
  }

  /**
   * A client counts as logged in exactly when, since the last USER or REIN, it has quit, or that last one
   * was a USER and a PASS came after it.
   */
  lemma LoginOverHistories(start: Session, h: seq<Event>, pathMax: nat)
    requires start.state == 0 && History(h)
    ensures Run(start, h, pathMax).state >= 2 <==> QuitStands(h) || LoginStands(h)
  {
    HistoryIsGuarded(h);
    StateReflects(start, h, pathMax);
    StateBits(Run(start, h, pathMax).state);
  }

  /** The disconnect bit, which ends the connection, says that a QUIT stands. */
  lemma DisconnOverHistories(start: Session, h: seq<Event>, pathMax: nat)
    requires start.state == 0 && History(h)
    ensures Run(start, h, pathMax).state & 16 != 0 <==> QuitStands(h)
  {
    HistoryIsGuarded(h);
    StateReflects(start, h, pathMax);
    StateBits(Run(start, h, pathMax).state);
  }

  /** Replies are only ever added. */
  lemma {:induction false} RepliesGrow(start: Session, before: seq<Event>, after: seq<Event>, pathMax: nat)
    requires before <= after
    ensures Run(start, before, pathMax).replies <= Run(start, after, pathMax).replies
    decreases |after|
  {
    if |before| == |after| {
      assert before == after;
    } else {
      var init := after[..|after| - 1];
      assert before <= init;
      RepliesGrow(start, before, init, pathMax);
      ApplyGrows(Run(start, init, pathMax), after[|after| - 1], pathMax);
    }
  }

  lemma ApplyGrows(st: Session, e: Event, pathMax: nat)
    ensures st.replies <= Apply(st, e, pathMax).replies
  {
  }

  /** Up to the first QUIT, being logged in means what it should. */
  lemma LoginBeforeQuit(start: Session, h: seq<Event>, pathMax: nat)
    requires start.state == 0 && History(h) && forall i :: 0 <= i < |h| ==> !Is(h[i], "QUIT")
    ensures Run(start, h, pathMax).state >= 2 <==> LoginStands(h)
  {
    LoginOverHistories(start, h, pathMax);
  }
}
