/** What a client's commands do to its session, word by word. */
module CommandWords {
  import opened Commands
  import opened Directories
  import opened PathNames
  import opened PathPrint
  import opened Sessions
  import opened Wrappers

  // ---------- One command ----------

  /** Only CWD gets to the handler that parses its argument, and only of a client that has logged in. */
  lemma CwdReaches(word: string, state: bv32)
    ensures Reaches(Lookup(word), state) && Lookup(word).value.handler.Cwd? <==> word == "CWD" && state >= 2
  {
    HandlersByWord(word);
    OpenHandlers(word);
  }

  function Replied(st: Session, code: nat): Session {
    st.(replies := st.replies + [code])
  }

  /** The directory that a CWD argument names, resolved on its own and then on top of the working directory. */
  ghost function Named(cwd: seq<string>, parameter: string): seq<string>
    requires parameter != ""
  {
    Normalize((if parameter[0] == '/' then [] else cwd) + Normalize(ParsedNames(parameter)))
  }

  /** It is entered if it is the root, or if its text fits with a terminator to spare and the file system has it. */
  ghost function AfterCwd(st: Session, parameter: string, outcome: bool, pathMax: nat): Session {
    if parameter == "" then Replied(st, 550)
    else
      var target := Named(st.cwd, parameter);
      if target == [] || (|Printed(true, target)| <= pathMax - 2 && outcome) then Replied(st.(cwd := target), 250)
      else Replied(st, 550)
  }

  /**
   * The session after a command, by its word. The state word is 0 for a new client, 1 behind USER, and 2 or more for
   * one that has logged in; 8 stands for a transfer, and 16 for the end of the connection.
   */
  ghost function ByWord(word: string, st: Session, parameter: string, outcome: bool, pathMax: nat): Session {
    ByOpenWord(word, st,
               if st.state < 2 then Replied(st, 530) else ByPathWord(word, st, parameter, outcome, pathMax))
  }

  /** The words that need no login, and what becomes of the session otherwise. */
  function ByOpenWord(word: string, st: Session, otherwise: Session): Session {
    if word == "USER" then Replied(st.(state := 1), 331)
    else if word == "PASS" then
      if st.state == 0 then Replied(st, 332)
      else if st.state == 1 then Replied(st.(state := 2), 230)
      else Replied(st, 503)
    else if word == "QUIT" then Replied(st.(state := st.state | 16), 221)
    else if word == "REIN" then Replied(st.(state := 0), 220)
    else if word == "NOOP" then Replied(st, 200)
    else otherwise
  }

  /** The words that list, show and change the directory, for a client that has logged in. */
  ghost function ByPathWord(word: string, st: Session, parameter: string, outcome: bool, pathMax: nat): Session {
    if word == "LIST" then
      if outcome then st.(state := st.state | 8) else Replied(st.(state := st.state | 8), 425)
    else if word == "PWD" then Replied(st, 257)
    else if word == "CWD" then AfterCwd(st, parameter, outcome, pathMax)
    else if word == "CDUP" then Replied(st.(cwd := if st.cwd == [] then [] else st.cwd[..|st.cwd| - 1]), 250)
    else ByOtherWord(word, st, outcome)
  }

  /** The words that leave the state and the directory alone; some of them do nothing at all. */
  ghost function ByOtherWord(word: string, st: Session, outcome: bool): Session {
    if word == "SIZE" then st
    else if word == "PASV" then Replied(st, 227)
    else if word == "PORT" then if outcome then st else Replied(st, 500)
    else if word == "TYPE" then st
    else if word == "SYST" then Replied(st, 215)
    else if word in ["MODE", "RETR", "STOR", "APPE", "REST", "DELE"] then st
    else if word in ["MKD", "RMD", "RNFR", "RNTO", "NLST", "SITE"] then st
    else if word == "ALLO" then Replied(st, 202)
    else Replied(st, 502)
  }

  /** The table, searched from some entry on. */
  function From(word: string, i: nat): Option<Command> {
    LookupFrom(COMMANDS, word, i)
  }

  lemma EntryIs(word: string, i: nat, c: Command)
    requires i < |COMMANDS| && COMMANDS[i] == c
    ensures From(word, i) == if word == c.mnemonic then Some(c) else From(word, i + 1)
  {
  }

  lemma OpenWords(word: string)
    ensures From(word, 0) == OpenEntry(word, From(word, 5))
  {
    EntryIs(word, 4, Command("NOOP", false, Noop));
    EntryIs(word, 3, Command("REIN", false, Reinitialize));
    EntryIs(word, 2, Command("QUIT", false, Quit));
    EntryIs(word, 1, Command("PASS", false, Pass));
    EntryIs(word, 0, Command("USER", false, User));
  }

  lemma PathWords(word: string)
    ensures From(word, 5) == PathEntry(word, From(word, 9))
  {
    EntryIs(word, 8, Command("CDUP", true, Cdup));
    EntryIs(word, 7, Command("CWD", true, Cwd));
    EntryIs(word, 6, Command("PWD", true, Pwd));
    EntryIs(word, 5, Command("LIST", true, List));
  }

  lemma TransferWords(word: string)
    ensures From(word, 9) ==
            if word == "SIZE" then Some(Command("SIZE", true, Stub))
            else if word == "PASV" then Some(Command("PASV", true, Passive))
            else if word == "PORT" then Some(Command("PORT", true, Port))
            else if word == "TYPE" then Some(Command("TYPE", true, Stub))
            else if word == "SYST" then Some(Command("SYST", true, System))
            else From(word, 14)
  {
    EntryIs(word, 13, Command("SYST", true, System));
    EntryIs(word, 12, Command("TYPE", true, Stub));
    EntryIs(word, 11, Command("PORT", true, Port));
    EntryIs(word, 10, Command("PASV", true, Passive));
    EntryIs(word, 9, Command("SIZE", true, Stub));
  }

  lemma FileWords(word: string)
    ensures From(word, 14) ==
            if word in ["MODE", "RETR", "STOR", "APPE", "REST", "DELE"] then Some(Command(word, true, Stub))
            else From(word, 20)
  {
    assert From(word, 18) == if word in ["REST", "DELE"] then Some(Command(word, true, Stub)) else From(word, 20);
    assert From(word, 16) ==
           if word in ["STOR", "APPE"] then Some(Command(word, true, Stub)) else From(word, 18);
  }

  lemma NameWords(word: string)
    ensures From(word, 20) ==
            if word in ["MKD", "RMD", "RNFR", "RNTO", "NLST", "SITE"] then Some(Command(word, true, Stub))
            else if word == "ALLO" then Some(Command("ALLO", true, Allocate))
            else None
  {
    assert From(word, 26) == if word == "ALLO" then Some(Command("ALLO", true, Allocate)) else None;
    assert From(word, 24) == if word in ["NLST", "SITE"] then Some(Command(word, true, Stub)) else From(word, 26);
    assert From(word, 22) == if word in ["RNFR", "RNTO"] then Some(Command(word, true, Stub)) else From(word, 24);
  }

  lemma CwdByWord(st: Session, parameter: string, outcome: bool, pathMax: nat)
    requires Directory(st.cwd) && pathMax >= 2
    ensures AfterCwd(st, parameter, outcome, pathMax) ==
            st.(cwd := CwdAfter(Cwd, st.cwd, parameter, outcome, pathMax),
                replies := st.replies + Codes(Cwd, st, parameter, outcome, pathMax))
  {
    if parameter != "" {
      var names := Normalize(ParsedNames(parameter));
      NormalizeIdempotent(ParsedNames(parameter));
      assert [] + names == names && st.cwd + [] == st.cwd;
      WalkResolved([], st.cwd);
      assert [] + st.cwd == st.cwd;
      assert Named(st.cwd, parameter) == Target(st.cwd, parameter);
    }
  }

  /** The entry for one of the other words, or none for any word that is not listed. */
  function OtherEntry(word: string): Option<Command> {
    if word == "SIZE" then Some(Command("SIZE", true, Stub))
    else if word == "PASV" then Some(Command("PASV", true, Passive))
    else if word == "PORT" then Some(Command("PORT", true, Port))
    else if word == "TYPE" then Some(Command("TYPE", true, Stub))
    else if word == "SYST" then Some(Command("SYST", true, System))
    else if word in ["MODE", "RETR", "STOR", "APPE", "REST", "DELE"] then Some(Command(word, true, Stub))
    else if word in ["MKD", "RMD", "RNFR", "RNTO", "NLST", "SITE"] then Some(Command(word, true, Stub))
    else if word == "ALLO" then Some(Command("ALLO", true, Allocate))
    else None
  }

  lemma OtherWords(word: string)
    ensures From(word, 9) == OtherEntry(word)
  {
    TransferWords(word);
    FileWords(word);
    NameWords(word);
  }

  /** What the handlers of those words do. */
  function OtherReplies(handler: Handler, outcome: bool): seq<nat> {
    match handler
    case Passive => [227]
    case Port => if outcome then [] else [500]
    case System => [215]
    case Allocate => [202]
    case _ => []
  }

  predicate IsOther(handler: Handler) {
    handler.Passive? || handler.Port? || handler.System? || handler.Allocate? || handler.Stub?
  }

  lemma OtherResponds(word: string, handler: Handler, st: Session, parameter: string, outcome: bool, pathMax: nat)
    requires IsOther(handler)
    ensures Respond(Some(Command(word, true, handler)), st, parameter, outcome, pathMax) ==
            if st.state < 2 then Replied(st, 530) else st.(replies := st.replies + OtherReplies(handler, outcome))
  {
  }

  lemma UnknownResponds(st: Session, parameter: string, outcome: bool, pathMax: nat)
    ensures Respond(None, st, parameter, outcome, pathMax) == Replied(st, if st.state < 2 then 530 else 502)
  {
  }

  lemma OtherWordReplies(word: string, st: Session, outcome: bool)
    ensures var found := OtherEntry(word);
            ByOtherWord(word, st, outcome) ==
            if found.None? then Replied(st, 502)
            else st.(replies := st.replies + OtherReplies(found.value.handler, outcome))
    ensures OtherEntry(word).Some? ==>
              OtherEntry(word).value.authentication && IsOther(OtherEntry(word).value.handler)
  {
    assert st.replies + [] == st.replies;
  }

  lemma OtherByWord(word: string, found: Option<Command>, st: Session, parameter: string, outcome: bool, pathMax: nat)
    requires found == OtherEntry(word)
    ensures Respond(found, st, parameter, outcome, pathMax) ==
            if st.state < 2 then Replied(st, 530) else ByOtherWord(word, st, outcome)
  {
    OtherWordReplies(word, st, outcome);
    if found.None? {
      UnknownResponds(st, parameter, outcome, pathMax);
    } else {
      OtherResponds(found.value.mnemonic, found.value.handler, st, parameter, outcome, pathMax);
    }
  }

  /** The entry for one of these words, or what is found behind them. */
  function PathEntry(word: string, other: Option<Command>): Option<Command> {
    if word == "LIST" then Some(Command("LIST", true, List))
    else if word == "PWD" then Some(Command("PWD", true, Pwd))
    else if word == "CWD" then Some(Command("CWD", true, Cwd))
    else if word == "CDUP" then Some(Command("CDUP", true, Cdup))
    else other
  }

  /** What the handlers of those words do. */
  ghost function PathResult(handler: Handler, st: Session, parameter: string, outcome: bool, pathMax: nat): Session {
    match handler
    case List => if outcome then st.(state := st.state | 8) else Replied(st.(state := st.state | 8), 425)
    case Pwd => Replied(st, 257)
    case Cwd => AfterCwd(st, parameter, outcome, pathMax)
    case _ => Replied(st.(cwd := if st.cwd == [] then [] else st.cwd[..|st.cwd| - 1]), 250)
  }

  predicate IsPath(handler: Handler) {
    handler.List? || handler.Pwd? || handler.Cwd? || handler.Cdup?
  }

  lemma PathResponds(word: string, handler: Handler, st: Session, parameter: string, outcome: bool, pathMax: nat)
    requires Directory(st.cwd) && pathMax >= 2 && IsPath(handler)
    ensures Respond(Some(Command(word, true, handler)), st, parameter, outcome, pathMax) ==
            if st.state < 2 then Replied(st, 530) else PathResult(handler, st, parameter, outcome, pathMax)
  {
    if handler.Cwd? {
      CwdResponds(word, st, parameter, outcome, pathMax);
    } else {
      assert st.replies + [] == st.replies;
    }
  }

  lemma CwdResponds(word: string, st: Session, parameter: string, outcome: bool, pathMax: nat)
    requires Directory(st.cwd) && pathMax >= 2
    ensures Respond(Some(Command(word, true, Cwd)), st, parameter, outcome, pathMax) ==
            if st.state < 2 then Replied(st, 530) else AfterCwd(st, parameter, outcome, pathMax)
  {
    CwdByWord(st, parameter, outcome, pathMax);
  }

  /** The word is one of those, and does what its handler does, or it is another. */
  lemma PathWordResult(word: string, other: Option<Command>, st: Session, parameter: string, outcome: bool,
                       pathMax: nat)
    ensures var found := PathEntry(word, other);
            || (found == other && ByPathWord(word, st, parameter, outcome, pathMax) == ByOtherWord(word, st, outcome))
            || (found == Some(Command(word, true, found.value.handler)) && IsPath(found.value.handler) &&
                ByPathWord(word, st, parameter, outcome, pathMax) ==
                PathResult(found.value.handler, st, parameter, outcome, pathMax))
  {
  }

  lemma PathByWord(word: string, other: Option<Command>, st: Session, parameter: string, outcome: bool, pathMax: nat)
    requires Directory(st.cwd) && pathMax >= 2 && other == OtherEntry(word)
    ensures Respond(PathEntry(word, other), st, parameter, outcome, pathMax) ==
            if st.state < 2 then Replied(st, 530) else ByPathWord(word, st, parameter, outcome, pathMax)
  {
    var found := PathEntry(word, other);
    PathWordResult(word, other, st, parameter, outcome, pathMax);
    OtherByWord(word, other, st, parameter, outcome, pathMax);
    if found.Some? && IsPath(found.value.handler) {
      PathResponds(word, found.value.handler, st, parameter, outcome, pathMax);
    }
  }

  /** The entry for a word that needs no login, or what is found behind those. */
  function OpenEntry(word: string, path: Option<Command>): Option<Command> {
    if word == "USER" then Some(Command("USER", false, User))
    else if word == "PASS" then Some(Command("PASS", false, Pass))
    else if word == "QUIT" then Some(Command("QUIT", false, Quit))
    else if word == "REIN" then Some(Command("REIN", false, Reinitialize))
    else if word == "NOOP" then Some(Command("NOOP", false, Noop))
    else path
  }

  /** What the handlers of those words do. */
  function OpenResult(handler: Handler, st: Session): Session {
    match handler
    case User => Replied(st.(state := 1), 331)
    case Pass =>
      if st.state == 0 then Replied(st, 332)
      else if st.state == 1 then Replied(st.(state := 2), 230)
      else Replied(st, 503)
    case Quit => Replied(st.(state := st.state | 16), 221)
    case Reinitialize => Replied(st.(state := 0), 220)
    case _ => Replied(st, 200)
  }

  lemma OpenResponds(word: string, handler: Handler, st: Session, parameter: string, outcome: bool, pathMax: nat)
    requires OpenHandler(handler)
    ensures Respond(Some(Command(word, false, handler)), st, parameter, outcome, pathMax) == OpenResult(handler, st)
  {
  }

  /** The word is one of those, and does what its handler does, or it is another. */
  lemma OpenWordResult(word: string, path: Option<Command>, st: Session, otherwise: Session)
    ensures var found := OpenEntry(word, path);
            || (found == path && ByOpenWord(word, st, otherwise) == otherwise)
            || (found == Some(Command(word, false, found.value.handler)) && OpenHandler(found.value.handler) &&
                ByOpenWord(word, st, otherwise) == OpenResult(found.value.handler, st))
  {
  }

  lemma LookupByWord(word: string)
    ensures Lookup(word) == OpenEntry(word, PathEntry(word, OtherEntry(word)))
  {
    OpenWords(word);
    PathWords(word);
    OtherWords(word);
  }

  /** What the table, the login and the handlers make of a command is what its word says. */
  lemma RespondByWord(word: string, st: Session, parameter: string, outcome: bool, pathMax: nat)
    requires Directory(st.cwd) && pathMax >= 2
    ensures Respond(Lookup(word), st, parameter, outcome, pathMax) == ByWord(word, st, parameter, outcome, pathMax)
  {
    var path := PathEntry(word, OtherEntry(word));
    LookupByWord(word);
    OpenWordResult(word, path, st,
                   if st.state < 2 then Replied(st, 530) else ByPathWord(word, st, parameter, outcome, pathMax));
    PathByWord(word, OtherEntry(word), st, parameter, outcome, pathMax);
    if Lookup(word).Some? && !Lookup(word).value.authentication {
      OpenResponds(word, Lookup(word).value.handler, st, parameter, outcome, pathMax);
    }
  }

  /** The session after an event: a command by its word, or the end of a transfer. */
  ghost function ByEvent(st: Session, e: Event, pathMax: nat): Session {
    match e
    case Invoked(word, _, parameter, outcome) => ByWord(word, st, parameter, outcome, pathMax)
    case TransferOver(channel, closed) =>
      var over := st.(state := st.state & !8);
      if !channel then over else Replied(over, if closed then 226 else 420)
  }

  /** The session after a history, word by word. */
  ghost function ByWords(start: Session, h: seq<Event>, pathMax: nat): Session {
    if h == [] then start else ByEvent(ByWords(start, h[..|h| - 1], pathMax), h[|h| - 1], pathMax)
  }

  lemma ApplyByWord(st: Session, e: Event, pathMax: nat)
    requires Directory(st.cwd) && pathMax >= 2 && (e.Invoked? ==> e.found == Lookup(e.mnemonic))
    ensures Apply(st, e, pathMax) == ByEvent(st, e, pathMax)
  {
    if e.Invoked? {
      RespondByWord(e.mnemonic, st, e.parameter, e.outcome, pathMax);
    } else {
      assert st.replies + [] == st.replies;
    }
  }

  /** Over every history the session is what the words of its commands say. */
  lemma {:induction false} RunByWords(start: Session, h: seq<Event>, pathMax: nat)
    requires Directory(start.cwd) && pathMax >= 2 && History(h) && Texts(h)
    ensures Run(start, h, pathMax) == ByWords(start, h, pathMax)
  {
    if h != [] {
      var init, e := h[..|h| - 1], h[|h| - 1];
      RunByWords(start, init, pathMax);
      CwdStaysResolved(start, init, pathMax);
      ApplyByWord(Run(start, init, pathMax), e, pathMax);
    }
  }

  /** A new client that gives a name and a password is logged in, and may then ask where it is. */
  lemma LoginAnswers(name: string, password: string, outcome: bool, pathMax: nat)
    ensures var greeted := Session(0, [], [220]);
            var named := ByWord("USER", greeted, name, outcome, pathMax);
            var known := ByWord("PASS", named, password, outcome, pathMax);
            && named.state == 1 && known.state == 2
            && ByWord("PWD", known, "", outcome, pathMax).replies == [220, 331, 230, 257]
  {
    assert "PASS" != "USER" && "PWD" !in ["USER", "PASS", "QUIT", "REIN", "NOOP", "LIST"];
  }
}
