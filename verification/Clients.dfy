/** One connected client, and its command handlers. */
module Clients {
  import opened Commands
  import opened CommandWords
  import opened Ctype
  import opened Directories
  import opened IoBuffers
  import opened PathList
  import opened PathNames
  import opened PathPrint
  import opened PathText
  import opened Sessions
  import opened Wrappers

  /** Whether a path can be entered; `isDirectory` is what the file system says about its text. */
  method CanEnter(path: VfsPath, isDirectory: bool, pathMax: nat) returns (ok: bool)
    requires path.Valid() && NulFree(NamesOf(path.nodes)) && pathMax >= 2
    ensures ok <==> path.absolute && CanChdir(NamesOf(path.nodes), isDirectory, pathMax)
  {
    if !path.absolute {
      return false;
    }
    if path.entities == null {
      return true;
    }
    var text := Acquire(path, pathMax);
    if text == null {
      return false;
    }
    ok := isDirectory;
  }

  /** A C string of its own for an argument. */
  method CopyText(text: string) returns (a: array<char>)
    requires NUL !in text
    ensures fresh(a) && Holds(a, text)
  {
    a := new char[|text| + 1](_ => NUL);
    CopyIn(a, 0, text);
    assert a[..|text|] == a[0..|text|];
    a[|text|] := NUL;
  }

  class Client {
    var state: bv32
    var cwd: VfsPath
    var replies: seq<nat>
    const input: IoBuffer
    const output: IoBuffer
    const pathMax: nat
    /** The commands and transfer ends so far, and the bytes received so far. */
    ghost var log: seq<Event>
    ghost var received: string
    /** The components that have ever belonged to the working directory. */
    ghost var owned: set<PathEnt>

    /** The working directory is absolute and resolved, in an acyclic list of properly named components. */
    ghost predicate Valid()
      reads this, cwd, cwd.nodes
    {
      && cwd.Valid() && cwd.absolute && pathMax >= 2
      && Directory(NamesOf(cwd.nodes)) && (forall n :: n in cwd.nodes ==> n in owned)
    }

    ghost function Session(): Sessions.Session
      reads this, cwd, cwd.nodes
      requires Valid()
    {
      Sessions.Session(state, NamesOf(cwd.nodes), replies)
    }

    /** A new client is nobody, in the root directory. */
    constructor (input: IoBuffer, output: IoBuffer, pathMax: nat)
      requires pathMax >= 2
      ensures Valid() && Session() == Sessions.Session(STATE_NONE, [], []) && log == [] && received == ""
      ensures this.input == input && this.output == output && this.pathMax == pathMax && fresh(cwd) && fresh(owned)
    {
      this.input, this.output := input, output;
      this.pathMax := pathMax;
      state := STATE_NONE;
      replies := [];
      log, received := [], "";
      RootPath();
      var root := CopyText("/");
      var made := NewPath(root, "/");
      cwd := made.path;
      owned := set n | n in made.path.nodes;
    }

    static lemma RootPath()
      ensures !TrailingSlash("/") && Normalize(ParsedNames("/")) == []
    {
      ParsePrinted(true, []);
      assert Printed(true, []) == "/";
    }

    /** The greeting that a client is accepted with. */
    method Greet()
      requires Valid()
      modifies this`replies
      ensures Valid() && Session() == old(Session()).(replies := old(replies) + [220])
    {
      replies := replies + [220];
    }

    /** Changes the directory, when it exists; `overRead` says that parsing the argument left its end behind. */
    method DoCwd(args: string, isDirectory: bool) returns (overRead: bool)
      requires Valid() && NUL !in args
      modifies this`cwd, this`replies, this`owned
      ensures overRead <==> OverReads(args)
      ensures !overRead ==> Valid() && (cwd == old(cwd) || fresh(cwd)) && fresh(owned - old(owned))
      ensures !overRead ==> NamesOf(cwd.nodes) == CwdAfter(Cwd, old(NamesOf(cwd.nodes)), args, isDirectory, pathMax)
      ensures !overRead ==> replies == old(replies) + Codes(Cwd, old(Session()), args, isDirectory, pathMax)
    {
      var result;
      overRead, result := Resolve(args);
      if overRead {
        return;
      }
      TargetIsDirectory(NamesOf(cwd.nodes), args);
      var ok := Move(result, isDirectory, Target(NamesOf(cwd.nodes), args));
    }

    /** Enters the directory an argument came to, if it can be entered. */
    method Move(result: VfsPath?, isDirectory: bool, ghost target: seq<string>) returns (ok: bool)
      requires Valid() && Directory(target)
      requires result != null ==> result.Valid() && result.absolute && NamesOf(result.nodes) == target
      modifies this`cwd, this`replies, this`owned
      ensures ok <==> result != null && CanChdir(target, isDirectory, pathMax)
      ensures Valid() && cwd == (if ok then result else old(cwd))
      ensures owned == old(owned) + if ok then (set n | n in result.nodes) else {}
      ensures NamesOf(cwd.nodes) == if ok then target else old(NamesOf(cwd.nodes))
      ensures replies == old(replies) + [if ok then 250 else 550]
    {
      ok := false;
      if result != null {
        ok := CanEnter(result, isDirectory, pathMax);
      }
      if ok {
        Enter(result);
        replies := replies + [250];
      } else {
        replies := replies + [550];
      }
    }

    method Enter(path: VfsPath)
      modifies this`cwd, this`owned
      ensures cwd == path && owned == old(owned) + set n | n in path.nodes
    {
      cwd := path;
      owned := owned + set n | n in path.nodes;
    }

    /** Parses an argument and merges it with the working directory. */
    method Resolve(args: string) returns (overRead: bool, result: VfsPath?)
      requires Valid() && NUL !in args
      ensures overRead <==> OverReads(args)
      ensures !overRead ==> (result == null <==> args == "")
      ensures result != null ==> fresh(result) && fresh(result.nodes) && result.Valid() && result.absolute
      ensures !overRead && result != null ==> NamesOf(result.nodes) == Target(NamesOf(cwd.nodes), args)
    {
      var text := CopyText(args);
      var parsed := NewPath(text, args);
      if parsed.OverRead? {
        return true, null;
      }
      overRead := false;
      result := Merge(cwd, parsed.path);
    }

    /** Goes up one directory level, in place. */
    method DoCdup()
      requires Valid()
      modifies this`replies, cwd, owned
      ensures Valid() && cwd == old(cwd)
      ensures NamesOf(cwd.nodes) == Popped(old(NamesOf(cwd.nodes)), 1) && replies == old(replies) + [250]
    {
      PoppedDirectory(NamesOf(cwd.nodes));
      DetachLast(cwd);
      replies := replies + [250];
    }

    method DoUser()
      modifies this`state, this`replies
      ensures state == STATE_USER && replies == old(replies) + [331]
    {
      state := STATE_USER;
      replies := replies + [331];
    }

    method DoPass()
      modifies this`state, this`replies
      ensures state == if old(state) == STATE_USER then STATE_AUTH else old(state)
      ensures replies ==
        old(replies) + [if old(state) == STATE_NONE then 332 else if old(state) == STATE_USER then 230 else 503]
    {
      if state == STATE_NONE {
        replies := replies + [332];
      } else if state == STATE_USER {
        state := STATE_AUTH;
        replies := replies + [230];
      } else {
        replies := replies + [503];
      }
    }

    method DoQuit()
      modifies this`state, this`replies
      ensures state == old(state) | STATE_DISCONN && replies == old(replies) + [221]
    {
      state := state | STATE_DISCONN;
      replies := replies + [221];
    }

    method DoReinitialize()
      modifies this`state, this`replies
      ensures state == STATE_NONE && replies == old(replies) + [220]
    {
      state := STATE_NONE;
      replies := replies + [220];
    }

    /** Starts sending a listing; `taken` says whether the data connection takes it. */
    method DoList(taken: bool)
      modifies this`state, this`replies
      ensures state == old(state) | STATE_DATA && replies == old(replies) + if taken then [] else [425]
    {
      state := state | STATE_DATA;
      if !taken {
        replies := replies + [425];
      }
    }

    /** `accepted` says whether the address was understood. */
    method DoPort(accepted: bool)
      modifies this`replies
      ensures replies == old(replies) + if accepted then [] else [500]
    {
      if !accepted {
        replies := replies + [500];
      }
    }

    /** The handlers that only reply. */
    method DispatchReply(handler: Handler, outcome: bool, ghost parameter: string)
      requires OnlyReplies(handler) && Valid()
      modifies this`replies
      ensures replies == old(replies) + Codes(handler, old(Session()), parameter, outcome, pathMax)
    {
      match handler {
        case Noop => replies := replies + [200];
        case Pwd => replies := replies + [257];
        case Passive => replies := replies + [227];
        case Port => DoPort(outcome);
        case System => replies := replies + [215];
        case Allocate => replies := replies + [202];
        case _ => // an empty body
      }
    }

    /** The handlers that change the state word. */
    method DispatchState(handler: Handler, outcome: bool, ghost parameter: string)
      requires ChangesState(handler) && Valid()
      modifies this`state, this`replies
      ensures state == StateAfter(handler, old(state))
      ensures replies == old(replies) + Codes(handler, old(Session()), parameter, outcome, pathMax)
    {
      if handler.User? {
        DoUser();
      } else if handler.Pass? {
        DoPass();
      } else if handler.Quit? {
        DoQuit();
      } else if handler.Reinitialize? {
        DoReinitialize();
      } else {
        DoList(outcome);
      }
    }

    /** Calls a handler. */
    method Dispatch(handler: Handler, parameter: string, outcome: bool) returns (overRead: bool)
      requires Valid() && NUL !in parameter
      modifies this`state, this`cwd, this`replies, this`owned, cwd, owned
      ensures overRead <==> handler.Cwd? && OverReads(parameter)
      ensures !overRead ==> Valid() && Session() == Handled(handler, old(Session()), parameter, outcome, pathMax)
      ensures !overRead ==> (cwd == old(cwd) || fresh(cwd)) && fresh(owned - old(owned))
    {
      overRead := false;
      if handler.Cwd? {
        overRead := DoCwd(parameter, outcome);
      } else if handler.Cdup? {
        DoCdup();
      } else if ChangesState(handler) {
        DispatchState(handler, outcome, parameter);
      } else {
        DispatchReply(handler, outcome, parameter);
      }
    }

    /** Leaves the transfer state, with a reply if there was a channel. */
    method EndTransfer(channel: bool, closed: bool)
      requires Valid()
      modifies this`state, this`replies, this`log
      ensures Valid() && log == old(log) + [TransferOver(channel, closed)]
      ensures Session() == AfterTransfer(old(Session()), channel, closed)
    {
      ghost var st := Session();
      ReplyEnd(channel, closed);
      log := log + [TransferOver(channel, closed)];
      assert NamesOf(cwd.nodes) == st.cwd;
    }

    method ReplyEnd(channel: bool, closed: bool)
      modifies this`state, this`replies
      ensures state == old(state) & !STATE_DATA && replies == old(replies) + EndCodes(channel, closed)
    {
      state := state & !STATE_DATA;
      if channel {
        replies := replies + [if closed then 226 else 420];
      }
    }

    /** Looks a command up and calls its handler, or turns it away. */
    method CommandInvoke(mnemonic: string, parameter: string, outcome: bool) returns (overRead: bool)
      requires Valid() && NUL !in parameter
      modifies this`state, this`cwd, this`replies, this`log, this`owned, cwd, owned
      ensures overRead <==> mnemonic == "CWD" && old(state) >= 2 && OverReads(parameter)
      ensures log == old(log) + if overRead then [] else [Invoked(mnemonic, Lookup(mnemonic), parameter, outcome)]
      ensures !overRead ==> Valid() && Session() == ByWord(mnemonic, old(Session()), parameter, outcome, pathMax)
      ensures !overRead ==> (cwd == old(cwd) || fresh(cwd)) && fresh(owned - old(owned))
    {
      ghost var st := Session();
      CwdReaches(mnemonic, state);
      RespondByWord(mnemonic, st, parameter, outcome, pathMax);
      overRead := FindAndObey(mnemonic, parameter, outcome);
    }

    method FindAndObey(mnemonic: string, parameter: string, outcome: bool) returns (overRead: bool)
      requires Valid() && NUL !in parameter
      modifies this`state, this`cwd, this`replies, this`log, this`owned, cwd, owned
      ensures var found := Lookup(mnemonic);
              && (overRead <==> Reaches(found, old(state)) && found.value.handler.Cwd? && OverReads(parameter))
              && log == old(log) + (if overRead then [] else [Invoked(mnemonic, found, parameter, outcome)])
              && (!overRead ==> Valid() && Session() == Respond(found, old(Session()), parameter, outcome, pathMax))
      ensures !overRead ==> (cwd == old(cwd) || fresh(cwd)) && fresh(owned - old(owned))
    {
      var found := FindCommand(mnemonic);
      overRead := Obey(found, parameter, outcome);
      if !overRead {
        log := log + [Invoked(mnemonic, found, parameter, outcome)];
      }
    }

    /** Calls the handler of the command that was found, or turns the command away. */
    method Obey(found: Option<Command>, parameter: string, outcome: bool) returns (overRead: bool)
      requires Valid() && NUL !in parameter
      modifies this`state, this`cwd, this`replies, this`owned, cwd, owned
      ensures overRead <==> Reaches(found, old(state)) && found.value.handler.Cwd? && OverReads(parameter)
      ensures !overRead ==> Valid() && Session() == Respond(found, old(Session()), parameter, outcome, pathMax)
      ensures !overRead ==> (cwd == old(cwd) || fresh(cwd)) && fresh(owned - old(owned))
    {
      overRead := false;
      if found.None? || (found.value.authentication && !Authenticated(state)) {
        replies := replies + [if found.None? && Authenticated(state) then 502 else 530];
      } else {
        overRead := Dispatch(found.value.handler, parameter, outcome);
      }
    }
  }

  predicate ChangesState(handler: Handler) {
    handler.User? || handler.Pass? || handler.Quit? || handler.Reinitialize? || handler.List?
  }

  predicate OnlyReplies(handler: Handler) {
    !ChangesState(handler) && !handler.Cwd? && !handler.Cdup?
  }

  /** This event is the command, looked up in the table. */
  predicate IsCommand(e: Event, mnemonic: string, parameter: string) {
    e.Invoked? && e.mnemonic == mnemonic && e.found == Lookup(mnemonic) && e.parameter == parameter
  }

  /** What a handler makes of a session. */
  ghost function Handled(handler: Handler, st: Session, parameter: string, outcome: bool, pathMax: nat): Session {
    Sessions.Session(
      StateAfter(handler, st.state),
      CwdAfter(handler, st.cwd, parameter, outcome, pathMax),
      st.replies + Codes(handler, st, parameter, outcome, pathMax))
  }
}
