/** The command table and its lookup. */
module Commands {
  import opened Wrappers

  /** What a command's handler does; handlers with an empty body are all `Stub`. */
  datatype Handler =
    | User | Pass | Quit | Reinitialize | Noop | List | Pwd | Cwd | Cdup | Passive | Port | System | Allocate | Stub

  datatype Command = Command(mnemonic: string, authentication: bool, handler: Handler)

  const COMMANDS: seq<Command> := [
    Command("USER", false, User),
    Command("PASS", false, Pass),
    Command("QUIT", false, Quit),
    Command("REIN", false, Reinitialize),
    Command("NOOP", false, Noop),
    Command("LIST", true, List),
    Command("PWD", true, Pwd),
    Command("CWD", true, Cwd),
    Command("CDUP", true, Cdup),
    Command("SIZE", true, Stub),
    Command("PASV", true, Passive),
    Command("PORT", true, Port),
    Command("TYPE", true, Stub),
    Command("SYST", true, System),
    Command("MODE", true, Stub),
    Command("RETR", true, Stub),
    Command("STOR", true, Stub),
    Command("APPE", true, Stub),
    Command("REST", true, Stub),
    Command("DELE", true, Stub),
    Command("MKD", true, Stub),
    Command("RMD", true, Stub),
    Command("RNFR", true, Stub),
    Command("RNTO", true, Stub),
    Command("NLST", true, Stub),
    Command("SITE", true, Stub),
    Command("ALLO", true, Allocate)
  ]

  /** The first entry of a table for a mnemonic, from position `i` on. */
  function LookupFrom(table: seq<Command>, mnemonic: string, i: nat): Option<Command>
    decreases |table| - i
  {
    if i >= |table| then None
    else if table[i].mnemonic == mnemonic then Some(table[i])
    else LookupFrom(table, mnemonic, i + 1)
  }

  function Lookup(mnemonic: string): Option<Command> {
    LookupFrom(COMMANDS, mnemonic, 0)
  }

  /** The linear search of the table. */
  method FindCommand(mnemonic: string) returns (r: Option<Command>)
    ensures r == Lookup(mnemonic)
  {
    var i := 0;
    while i < |COMMANDS|
      invariant i <= |COMMANDS| && Lookup(mnemonic) == LookupFrom(COMMANDS, mnemonic, i)
    {
      if mnemonic == COMMANDS[i].mnemonic {
        return Some(COMMANDS[i]);
      }
      i := i + 1;
    }
    return None;
  }

  lemma {:induction false} LookupFinds(table: seq<Command>, mnemonic: string, i: nat)
    requires i <= |table|
    ensures LookupFrom(table, mnemonic, i) == None ==> forall k :: i <= k < |table| ==> table[k].mnemonic != mnemonic
    ensures LookupFrom(table, mnemonic, i).Some? ==>
              exists k :: i <= k < |table| && table[k] == LookupFrom(table, mnemonic, i).value &&
                table[k].mnemonic == mnemonic
    decreases |table| - i
  {
    if i < |table| {
      LookupFinds(table, mnemonic, i + 1);
    }
  }

  /** In a table without duplicates, the search finds exactly the entries that are there. */
  lemma LookupIsUnique(table: seq<Command>, mnemonic: string, c: Command)
    requires forall i, j :: 0 <= i < j < |table| ==> table[i].mnemonic != table[j].mnemonic
    ensures LookupFrom(table, mnemonic, 0) == Some(c) <==> c in table && c.mnemonic == mnemonic
  {
    LookupFinds(table, mnemonic, 0);
  }

  lemma DistinctLow()
    ensures forall i, j :: 0 <= i < j < |COMMANDS| && i < 4 ==> COMMANDS[i].mnemonic != COMMANDS[j].mnemonic
  {
  }

  lemma DistinctMiddle()
    ensures forall i, j :: 4 <= i < j < |COMMANDS| && i < 8 ==> COMMANDS[i].mnemonic != COMMANDS[j].mnemonic
  {
  }

  lemma DistinctHigh()
    ensures forall i, j :: 8 <= i < j < |COMMANDS| ==> COMMANDS[i].mnemonic != COMMANDS[j].mnemonic
  {
  }

  /** No mnemonic is listed twice, so the search finds an entry exactly when the table holds it. */
  lemma LookupIsMembership(mnemonic: string, c: Command)
    ensures Lookup(mnemonic) == Some(c) <==> c in COMMANDS && c.mnemonic == mnemonic
  {
    DistinctLow();
    DistinctMiddle();
    DistinctHigh();
    LookupIsUnique(COMMANDS, mnemonic, c);
  }

  lemma OpenEntries(k: nat)
    requires k < |COMMANDS|
    ensures !COMMANDS[k].authentication <==> k < 5
    ensures k < 5 ==> COMMANDS[k].mnemonic == ["USER", "PASS", "QUIT", "REIN", "NOOP"][k]
  {
  }

  /** Only the login commands and NOOP are open to a client that has not logged in. */
  lemma OpenCommands(mnemonic: string)
    ensures Lookup(mnemonic).Some? && !Lookup(mnemonic).value.authentication <==>
            mnemonic in ["USER", "PASS", "QUIT", "REIN", "NOOP"]
  {
    LookupFinds(COMMANDS, mnemonic, 0);
    var open := ["USER", "PASS", "QUIT", "REIN", "NOOP"];
    if Lookup(mnemonic).Some? {
      var k :| 0 <= k < |COMMANDS| && COMMANDS[k] == Lookup(mnemonic).value && COMMANDS[k].mnemonic == mnemonic;
      OpenEntries(k);
      if k >= 5 && mnemonic in open {
        var i :| 0 <= i < 5 && open[i] == mnemonic;
        OpenEntries(i);
        LookupIsMembership(mnemonic, COMMANDS[i]);
      }
    } else if mnemonic in open {
      var i :| 0 <= i < 5 && open[i] == mnemonic;
      OpenEntries(i);
    }
  }

  /** The entries that are not stubs. */
  lemma EntryAt(k: nat)
    requires k < |COMMANDS|
    ensures var c := COMMANDS[k];
            && (c.handler.User? <==> k == 0) && (c.handler.Pass? <==> k == 1) && (c.handler.Quit? <==> k == 2)
            && (c.handler.Reinitialize? <==> k == 3) && (c.handler.Cwd? <==> k == 7) && (c.handler.Cdup? <==> k == 8)
  {
  }

  lemma LoginNames()
    ensures COMMANDS[0] == Command("USER", false, User) && COMMANDS[1] == Command("PASS", false, Pass)
    ensures COMMANDS[2] == Command("QUIT", false, Quit) && COMMANDS[3] == Command("REIN", false, Reinitialize)
  {
  }

  lemma DirectoryNames()
    ensures COMMANDS[7] == Command("CWD", true, Cwd) && COMMANDS[8] == Command("CDUP", true, Cdup)
  {
  }

  predicate Handles(found: Option<Command>, handler: Handler) {
    found.Some? && found.value.handler == handler
  }

  /** The entry at `k` is the only one with its handler, and so exactly its mnemonic leads to that. */
  lemma OnlyEntry(mnemonic: string, handler: Handler, k: nat)
    requires k < |COMMANDS| && forall i :: 0 <= i < |COMMANDS| ==> (COMMANDS[i].handler == handler <==> i == k)
    ensures Handles(Lookup(mnemonic), handler) <==> mnemonic == COMMANDS[k].mnemonic
  {
    LookupFinds(COMMANDS, mnemonic, 0);
    LookupIsMembership(COMMANDS[k].mnemonic, COMMANDS[k]);
  }

  /** Which words lead to the handlers that matter to the login and to the working directory. */
  lemma HandlersByWord(mnemonic: string)
    ensures Handles(Lookup(mnemonic), User) <==> mnemonic == "USER"
    ensures Handles(Lookup(mnemonic), Pass) <==> mnemonic == "PASS"
    ensures Handles(Lookup(mnemonic), Quit) <==> mnemonic == "QUIT"
    ensures Handles(Lookup(mnemonic), Reinitialize) <==> mnemonic == "REIN"
    ensures Handles(Lookup(mnemonic), Cwd) <==> mnemonic == "CWD"
    ensures Handles(Lookup(mnemonic), Cdup) <==> mnemonic == "CDUP"
  {
    LoginNames();
    DirectoryNames();
    forall k: nat | k < |COMMANDS| {
      EntryAt(k);
    }
    OnlyEntry(mnemonic, User, 0);
    OnlyEntry(mnemonic, Pass, 1);
    OnlyEntry(mnemonic, Quit, 2);
    OnlyEntry(mnemonic, Reinitialize, 3);
    OnlyEntry(mnemonic, Cwd, 7);
    OnlyEntry(mnemonic, Cdup, 8);
  }

  predicate OpenHandler(handler: Handler) {
    handler.User? || handler.Pass? || handler.Quit? || handler.Reinitialize? || handler.Noop?
  }

  lemma HandlerEntries(k: nat)
    requires k < |COMMANDS|
    ensures !COMMANDS[k].authentication <==> OpenHandler(COMMANDS[k].handler)
  {
  }

  /** Which handlers need a login. */
  lemma OpenHandlers(mnemonic: string)
    ensures Lookup(mnemonic).Some? ==>
      (!Lookup(mnemonic).value.authentication <==> OpenHandler(Lookup(mnemonic).value.handler))
  {
    LookupFinds(COMMANDS, mnemonic, 0);
    if Lookup(mnemonic).Some? {
      var k :| 0 <= k < |COMMANDS| && COMMANDS[k] == Lookup(mnemonic).value && COMMANDS[k].mnemonic == mnemonic;
      HandlerEntries(k);
    }
  }
}
