/** The working directory over whole histories of commands. */
module Directories {
  import opened Ctype
  import opened Commands
  import opened PathNames
  import opened PathPrint
  import opened Sessions

  /** A directory as the client keeps it: resolved, with proper names. */
  predicate Directory(cwd: seq<string>) {
    Resolved(cwd) && Names(cwd)
  }

  /** Arguments are C strings. */
  predicate Texts(h: seq<Event>) {
    forall i {:trigger h[i]} :: 0 <= i < |h| && h[i].Invoked? ==> NUL !in h[i].parameter
  }

  lemma PoppedDirectory(cwd: seq<string>)
    requires Directory(cwd)
    ensures Directory(Popped(cwd, 1))
  {
  }

  /** Wherever a CWD leads is a directory of this kind. */
  lemma TargetIsDirectory(cwd: seq<string>, parameter: string)
    requires Directory(cwd) && NUL !in parameter
    ensures Directory(Target(cwd, parameter))
  {
    var raw := ParsedNames(parameter);
    SplitNames(parameter);
    NormalizeIdempotent(raw);
    WalkNames([], raw);
    NormalizeIdempotent(cwd + Normalize(raw));
    WalkNames([], cwd + Normalize(raw));
  }

  lemma CwdStep(st: Session, e: Event, pathMax: nat)
    requires Directory(st.cwd) && (e.Invoked? ==> NUL !in e.parameter)
    ensures Directory(Apply(st, e, pathMax).cwd)
  {
    if e.Invoked? {
      TargetIsDirectory(st.cwd, e.parameter);
      PoppedDirectory(st.cwd);
    }
  }

  /** Over every history the working directory stays resolved, with proper names. */
  lemma {:induction false} CwdStaysResolved(start: Session, h: seq<Event>, pathMax: nat)
    requires Directory(start.cwd) && Texts(h)
    ensures Directory(Run(start, h, pathMax).cwd)
  {
    if h == [] {
    } else {
      CwdStaysResolved(start, h[..|h| - 1], pathMax);
      CwdStep(Run(start, h[..|h| - 1], pathMax), h[|h| - 1], pathMax);
    }
  }

  /** CDUP is a raw ".." resolved against the directory, and does nothing at the root. */
  lemma CdupIsParent(cwd: seq<string>, parameter: string, outcome: bool, pathMax: nat)
    requires Directory(cwd)
    ensures CwdAfter(Cdup, cwd, parameter, outcome, pathMax) == Normalize(cwd + [".."])
    ensures cwd == [] ==> CwdAfter(Cdup, cwd, parameter, outcome, pathMax) == []
  {
    ParentIsDropLast(cwd);
  }

  /**
   * A relative CWD goes where resolving its raw components against the directory leads, exactly when the
   * directory is the root or the argument never climbs above its own start.
   */
  lemma ChdirIsLexical(cwd: seq<string>, parameter: string, outcome: bool, pathMax: nat)
    requires Directory(cwd) && Chdirs(cwd, parameter, outcome, pathMax) && parameter[0] != '/'
    ensures CwdAfter(Cwd, cwd, parameter, outcome, pathMax) == Normalize(cwd + ParsedNames(parameter)) <==>
            cwd == [] || Underflows([], ParsedNames(parameter)) == 0
  {
    var raw := ParsedNames(parameter);
    EarlyResolveIsLexical(cwd, raw);
    WalkResolved([], cwd);
    assert [] + cwd == cwd && cwd + [] == cwd;
  }

  /** An absolute CWD goes where its components lead. */
  lemma ChdirAbsolute(cwd: seq<string>, parameter: string, outcome: bool, pathMax: nat)
    requires Chdirs(cwd, parameter, outcome, pathMax) && parameter[0] == '/'
    ensures CwdAfter(Cwd, cwd, parameter, outcome, pathMax) == Normalize(ParsedNames(parameter))
  {
  }

  /** Since an argument is resolved before it is merged, "CWD .." stays where it is, in every directory. */
  lemma ChdirParentStays(cwd: seq<string>)
    ensures Target(cwd, "..") == cwd
    ensures cwd != [] && Directory(cwd) ==> Target(cwd, "..") != Normalize(cwd + ParsedNames(".."))
  {
    assert Names([".."]) && AllPrintable("..") && Join([".."]) == "..";
    assert Printed(false, [".."]) == "..";
    ParsePrinted(false, [".."]);
    EarlyResolveLosesParent();
    assert Normalize([".."]) == Walk(Step([], ".."), [".."][1..]);
    if Directory(cwd) {
      ParentIsDropLast(cwd);
    }
  }

  // ---------- The path a client has typed ----------

  /** This command, of a client that has logged in. */
  predicate Runs(st: Session, e: Event, word: string) {
    e.Invoked? && e.mnemonic == word && st.state >= 2
  }

  /** It gets as far as its handler, and no other command gets there. */
  lemma RunsHandler(st: Session, e: Event)
    requires e.Invoked? && e.found == Lookup(e.mnemonic)
    ensures Runs(st, e, "CWD") <==> Reaches(e.found, st.state) && e.found.value.handler == Cwd
    ensures Runs(st, e, "CDUP") <==> Reaches(e.found, st.state) && e.found.value.handler == Cdup
  {
    HandlersByWord(e.mnemonic);
    OpenHandlers(e.mnemonic);
  }

  /** The raw components typed so far, nothing resolved. */
  ghost function Typed(raw: seq<string>, st: Session, e: Event, pathMax: nat): seq<string> {
    if Runs(st, e, "CDUP") then raw + [".."]
    else if Runs(st, e, "CWD") && Chdirs(st.cwd, e.parameter, e.outcome, pathMax) then
      (if e.parameter[0] == '/' then [] else raw) + ParsedNames(e.parameter)
    else raw
  }

  ghost function TypedPath(start: Session, h: seq<Event>, pathMax: nat): seq<string> {
    if h == [] then start.cwd
    else
      var init := h[..|h| - 1];
      Typed(TypedPath(start, init, pathMax), Run(start, init, pathMax), h[|h| - 1], pathMax)
  }

  /** A relative CWD that succeeds does not climb above its own start, unless it starts at the root. */
  ghost predicate Tame(st: Session, e: Event, pathMax: nat) {
    Runs(st, e, "CWD") && Chdirs(st.cwd, e.parameter, e.outcome, pathMax) && e.parameter[0] != '/' ==>
      st.cwd == [] || Underflows([], ParsedNames(e.parameter)) == 0
  }

  ghost predicate TameHistory(start: Session, h: seq<Event>, pathMax: nat) {
    h == [] ||
    (TameHistory(start, h[..|h| - 1], pathMax) && Tame(Run(start, h[..|h| - 1], pathMax), h[|h| - 1], pathMax))
  }

  /** Resolving more components on a resolved prefix is resolving them all together. */
  lemma NormalizeExtend(raw: seq<string>, more: seq<string>)
    ensures Normalize(raw + more) == Normalize(Normalize(raw) + more)
  {
    WalkConcat([], raw, more);
    WalkConcat([], Normalize(raw), more);
    NormalizeIdempotent(raw);
  }

  lemma TypedStep(raw: seq<string>, st: Session, e: Event, pathMax: nat)
    requires Directory(st.cwd) && st.cwd == Normalize(raw) && Tame(st, e, pathMax)
    requires e.Invoked? ==> e.found == Lookup(e.mnemonic)
    ensures Apply(st, e, pathMax).cwd == Normalize(Typed(raw, st, e, pathMax))
  {
    if e.Invoked? {
      RunsHandler(st, e);
    }
    if Runs(st, e, "CDUP") {
      CdupIsParent(st.cwd, e.parameter, e.outcome, pathMax);
      NormalizeExtend(raw, [".."]);
    } else if Runs(st, e, "CWD") && Chdirs(st.cwd, e.parameter, e.outcome, pathMax) {
      var names := ParsedNames(e.parameter);
      assert [] + names == names;
      if e.parameter[0] == '/' {
        ChdirAbsolute(st.cwd, e.parameter, e.outcome, pathMax);
      } else {
        ChdirIsLexical(st.cwd, e.parameter, e.outcome, pathMax);
        NormalizeExtend(raw, names);
      }
    }
  }

  /** Over every tame history, the working directory is everything typed so far, resolved at once. */
  lemma {:induction false} CwdIsTypedPath(start: Session, h: seq<Event>, pathMax: nat)
    requires Directory(start.cwd) && History(h) && Texts(h) && TameHistory(start, h, pathMax)
    ensures Run(start, h, pathMax).cwd == Normalize(TypedPath(start, h, pathMax))
  {
    if h == [] {
      WalkResolved([], start.cwd);
      assert [] + start.cwd == start.cwd;
    } else {
      var init := h[..|h| - 1];
      CwdIsTypedPath(start, init, pathMax);
      CwdStaysResolved(start, init, pathMax);
      TypedStep(TypedPath(start, init, pathMax), Run(start, init, pathMax), h[|h| - 1], pathMax);
    }
  }
}
