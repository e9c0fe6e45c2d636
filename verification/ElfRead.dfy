/** Reading the input object: symbols, imported libraries and relocations. */
module ElfRead {
  import opened Wrappers
  import opened ElfSymbols

  const R_PPC_NONE: nat := 0
  const R_PPC_ADDR32: nat := 1
  const R_PPC_RELATIVE: nat := 22

  /**
   * How a stage ends. `BadPointer` is where the program goes on to use a null pointer, or one to a destroyed symbol;
   * a run ends there.
   */
  datatype Outcome = Done | Failed | BadPointer

  /** One entry of an input symbol table. */
  datatype InSymbol = InSymbol(name: string, value: nat, size: nat, info: nat)

  /** A symbol section of the input. */
  datatype SymTab = SymTab(name: string, entries: seq<InSymbol>)

  /** The entries of all the symbol sections, in file order. */
  function Entries(tabs: seq<SymTab>): seq<InSymbol> {
    if tabs == [] then [] else Entries(tabs[..|tabs| - 1]) + tabs[|tabs| - 1].entries
  }

  /** There is no symbol section of another name. */
  predicate SymTabsNamed(tabs: seq<SymTab>) {
    forall i :: 0 <= i < |tabs| ==> tabs[i].name == ".symtab"
  }

  /** One `.rplLibs` record: a library and the range of stub words that import from it. */
  datatype LibDef = LibDef(name: string, stubStart: nat, stubEnd: nat)

  datatype RplImport = RplImport(tramp: Ptr, stub: Ptr, stubAddr: nat, trampAddr: nat)
  datatype Library = Library(name: string, imports: seq<RplImport>)

  /** One input relocation with the kind and value of the symbol it names; `addend` is the unsigned word. */
  datatype InRela = InRela(offset: nat, info: nat, addend: nat, symKind: nat, symValue: nat)

  /** One loader relocation; `index` is that of the symbol it names, 0 for the null symbol. */
  datatype DynRela = DynRela(offset: nat, kind: nat, index: nat, addend: nat)

  /** A relocation is created with a null symbol pointer. */
  datatype Relocation = Relocation(target: nat, kind: nat, symbol: Option<Ptr>, addend: nat)

  // ---------- Symbols ----------

  predicate KeepsSymbol(s: InSymbol) {
    var kind := s.info % 16;
    && !(LOAD_ADDRESS <= s.value < CODE_ADDRESS)
    && !(kind == STT_NOTYPE && s.value == 0)
    && kind != STT_FILE && kind != STT_SECTION
  }

  function KeptSymbols(table: seq<InSymbol>): seq<InSymbol> {
    if table == [] then []
    else
      var last := table[|table| - 1];
      KeptSymbols(table[..|table| - 1]) + if KeepsSymbol(last) then [last] else []
  }

  predicate Copies(s: Symbol, from: InSymbol) {
    && s.name == from.name && s.address == from.value && s.size == from.size
    && s.kind == from.info % 16 && s.binding == from.info / 16 % 16
  }

  /** The reserved symbols, as they are created. */
  predicate Defaults(arena: seq<Symbol>) {
    && |arena| >= 4
    && arena[0] == Symbol("", 0, 0, 0, 0, 0) && arena[1] == Symbol("$TEXT", 0x0200_0000, 0, 3, 0, 0)
    && arena[2] == Symbol("$DATA", 0x1000_0000, 0, 3, 0, 0) && arena[3] == Symbol("$UNDEF", 0, 0, 1, 1, 0)
  }

  /** The arena and list right after reading the symbol table. */
  ghost predicate TableRead(arena: seq<Symbol>, symbols: seq<Ptr>, table: seq<InSymbol>) {
    && Reserved(arena, symbols) && Defaults(arena)
    && |symbols| == |arena| == 4 + |KeptSymbols(table)|
    && (forall i :: 0 <= i < |symbols| ==> symbols[i] == i)
    && forall i :: 0 <= i < |KeptSymbols(table)| ==> Copies(arena[4 + i], KeptSymbols(table)[i])
  }

  lemma TableAppend(arena: seq<Symbol>, symbols: seq<Ptr>, table: seq<InSymbol>, i: nat, s: Symbol)
    requires i < |table| && TableRead(arena, symbols, table[..i])
    ensures !KeepsSymbol(table[i]) ==> TableRead(arena, symbols, table[..i + 1])
    ensures KeepsSymbol(table[i]) && Copies(s, table[i]) ==>
      TableRead(arena + [s], symbols + [|arena|], table[..i + 1])
  {
    assert table[..i + 1][..i] == table[..i];
  }

  // ---------- Imports ----------

  function AllImports(libs: seq<Library>): seq<RplImport> {
    if libs == [] then [] else AllImports(libs[..|libs| - 1]) + libs[|libs| - 1].imports
  }

  function StubsOf(imports: seq<RplImport>): (r: seq<Ptr>)
    ensures |r| == |imports|
    ensures forall i :: 0 <= i < |r| ==> r[i] == imports[i].stub
  {
    seq(|imports|, i requires 0 <= i < |imports| => imports[i].stub)
  }

  function StubCount(def: LibDef): nat {
    if def.stubEnd <= def.stubStart then 0 else (def.stubEnd - def.stubStart + 3) / 4
  }

  /** The library's imports sit at consecutive words of its stub range. */
  ghost predicate ImportsFrom(lib: Library, def: LibDef, word: map<nat, nat>) {
    && lib.name == def.name
    && |lib.imports| == StubCount(def)
    && Consecutive(lib.imports, def.stubStart, word)
  }

  ghost predicate Consecutive(imports: seq<RplImport>, start: nat, word: map<nat, nat>) {
    forall i :: 0 <= i < |imports| ==>
      && imports[i].stubAddr == start + 4 * i
      && imports[i].stubAddr in word && imports[i].trampAddr == word[imports[i].stubAddr]
  }

  /** The first libraries are those of the first definitions. */
  ghost predicate LibsFrom(libs: seq<Library>, defs: seq<LibDef>, word: map<nat, nat>) {
    |libs| <= |defs| && forall l :: 0 <= l < |libs| ==> ImportsFrom(libs[l], defs[l], word)
  }

  lemma LibsAppend(libs: seq<Library>, lib: Library, defs: seq<LibDef>, word: map<nat, nat>)
    requires LibsFrom(libs, defs, word) && |libs| < |defs| && ImportsFrom(lib, defs[|libs|], word)
    ensures LibsFrom(libs + [lib], defs, word)
  {
    var more := libs + [lib];
    forall l | 0 <= l < |more|
      ensures ImportsFrom(more[l], defs[l], word)
    {
      assert more[l] == if l < |libs| then libs[l] else lib;
    }
  }

  /** The words of the stub range, every fourth byte of it, are present and address listed symbols. */
  ghost predicate TrampsKnown(arena: seq<Symbol>, symbols: seq<Ptr>, def: LibDef, word: map<nat, nat>)
    requires Allocated(arena, symbols)
  {
    forall a :: def.stubStart <= a < def.stubEnd && (a - def.stubStart) % 4 == 0 ==>
      a in word && Known(arena, symbols, word[a])
  }

  /** So it is for the words in front of an address. */
  ghost predicate TrampsKnownTo(arena: seq<Symbol>, symbols: seq<Ptr>, def: LibDef, word: map<nat, nat>, end: nat)
    requires Allocated(arena, symbols)
  {
    forall a :: def.stubStart <= a < def.stubEnd && a < end && (a - def.stubStart) % 4 == 0 ==>
      a in word && Known(arena, symbols, word[a])
  }

  /** The stub loop of a library stands at this address. */
  ghost predicate StubsTo(arena: seq<Symbol>, symbols: seq<Ptr>, def: LibDef, word: map<nat, nat>,
                          imports: seq<RplImport>, stubAddr: nat)
  {
    && Allocated(arena, symbols) && stubAddr == def.stubStart + 4 * |imports| && |imports| <= StubCount(def)
    && Consecutive(imports, def.stubStart, word) && TrampsKnownTo(arena, symbols, def, word, stubAddr)
  }

  /** The word there is looked at next. */
  lemma StubNext(arena: seq<Symbol>, symbols: seq<Ptr>, def: LibDef, word: map<nat, nat>,
                 imports: seq<RplImport>, stubAddr: nat)
    requires StubsTo(arena, symbols, def, word, imports, stubAddr) && stubAddr < def.stubEnd
    ensures TrampsKnown(arena, symbols, def, word) ==> stubAddr in word && Known(arena, symbols, word[stubAddr])
  {
    assert (stubAddr - def.stubStart) % 4 == 0;
  }

  lemma StubsStep(arena: seq<Symbol>, symbols: seq<Ptr>, def: LibDef, word: map<nat, nat>,
                  imports: seq<RplImport>, stubAddr: nat, imp: RplImport)
    requires StubsTo(arena, symbols, def, word, imports, stubAddr) && stubAddr < def.stubEnd
    requires stubAddr in word && Known(arena, symbols, word[stubAddr])
    requires imp.stubAddr == stubAddr && imp.trampAddr == word[stubAddr]
    ensures StubsTo(arena, symbols, def, word, imports + [imp], stubAddr + 4)
  {
    forall a | def.stubStart <= a < def.stubEnd && a < stubAddr + 4 && (a - def.stubStart) % 4 == 0
      ensures a in word && Known(arena, symbols, word[a])
    {
      if a >= stubAddr {
        OnlyFourth(a - def.stubStart, |imports|);
      }
    }
  }

  lemma OnlyFourth(distance: nat, count: nat)
    requires 4 * count <= distance < 4 * count + 4 && distance % 4 == 0
    ensures distance == 4 * count
  {
  }

  lemma StubsEnd(arena: seq<Symbol>, symbols: seq<Ptr>, def: LibDef, word: map<nat, nat>,
                 imports: seq<RplImport>, stubAddr: nat)
    requires StubsTo(arena, symbols, def, word, imports, stubAddr) && stubAddr >= def.stubEnd
    ensures TrampsKnown(arena, symbols, def, word) && ImportsFrom(Library(def.name, imports), def, word)
  {
  }

  /** An import stub is a global function without an address yet. */
  predicate IsStub(s: Symbol) {
    s.address == 0 && s.size == 0 && s.kind == 2 && s.binding == 1
  }

  /** No two imports go through the same trampoline. */
  ghost predicate TrampsDiffer(imports: seq<RplImport>) {
    forall j, k :: 0 <= j < k < |imports| ==> imports[j].trampAddr != imports[k].trampAddr
  }

  ghost predicate IsTramp(p: Ptr, imports: seq<RplImport>) {
    exists k :: 0 <= k < |imports| && imports[k].tramp == p
  }

  /** A stub per import follows the earlier symbols, and each trampoline is one of the earlier symbols. */
  ghost predicate StubsAdded(before: seq<Symbol>, listed: seq<Ptr>, arena: seq<Symbol>, symbols: seq<Ptr>,
                             done: seq<RplImport>)
  {
    && |arena| == |before| + |done|
    && symbols == listed + StubsOf(done)
    && Reserved(arena, symbols)
    && (forall k :: 0 <= k < |done| ==> done[k].stub == |before| + k)
    && (forall k :: |before| <= k < |arena| ==> IsStub(arena[k]))
  }

  ghost predicate TrampsAt(before: seq<Symbol>, done: seq<RplImport>) {
    forall k :: 0 <= k < |done| ==> done[k].tramp < |before| && before[done[k].tramp].address == done[k].trampAddr
  }

  /** Reading imports changes nothing of the earlier symbols but the names of the trampolines. */
  ghost predicate OnlyNamesMoved(before: seq<Symbol>, arena: seq<Symbol>, done: seq<RplImport>)
    requires |before| <= |arena|
  {
    forall p :: 0 <= p < |before| ==>
      && arena[p].(name := before[p].name) == before[p]
      && (IsTramp(p, done) || arena[p] == before[p])
  }

  /** A trampoline's own name has moved to its stub. */
  ghost predicate NamesMoved(before: seq<Symbol>, arena: seq<Symbol>, done: seq<RplImport>)
    requires |arena| == |before| + |done| && TrampsAt(before, done)
  {
    TrampsDiffer(done) ==>
      forall k :: 0 <= k < |done| ==>
        && arena[|before| + k].name == before[done[k].tramp].name
        && arena[done[k].tramp].name == before[done[k].tramp].name + "_tramp"
  }

  /**
   * The arena and list after reading `done` imports, `before` and `listed` being those without any.
   */
  ghost predicate ImportsRead(before: seq<Symbol>, listed: seq<Ptr>, arena: seq<Symbol>, symbols: seq<Ptr>,
                              done: seq<RplImport>)
  {
    && StubsAdded(before, listed, arena, symbols, done)
    && TrampsAt(before, done)
    && OnlyNamesMoved(before, arena, done)
    && NamesMoved(before, arena, done)
    && TrampsSettled(before, listed, arena, done)
  }

  /** Every trampoline is what a search for its address answers, and has a name by now. */
  ghost predicate TrampsSettled(before: seq<Symbol>, listed: seq<Ptr>, arena: seq<Symbol>, done: seq<RplImport>) {
    Allocated(before, listed) && forall k :: 0 <= k < |done| ==> TrampSettled(before, listed, arena, done[k])
  }

  ghost predicate TrampSettled(before: seq<Symbol>, listed: seq<Ptr>, arena: seq<Symbol>, imp: RplImport)
    requires Allocated(before, listed)
  {
    && (exists i: nat :: Finds(before, listed, imp.trampAddr, i) && listed[i] == imp.tramp)
    && imp.tramp < |arena| && arena[imp.tramp].name != ""
  }

  /**
   * `read` says of an arena, a list and imports that they are what reading has made of `before` and `listed`. The
   * loops take it as a parameter, since what it says only matters where an import is read.
   */
  ghost predicate SaysRead(read: (seq<Symbol>, seq<Ptr>, seq<RplImport>) -> bool, before: seq<Symbol>,
                           listed: seq<Ptr>)
  {
    forall arena, symbols, done {:trigger ImportsRead(before, listed, arena, symbols, done)} ::
      read(arena, symbols, done) <==> ImportsRead(before, listed, arena, symbols, done)
  }

  /** No address search answers with a stub: `$UNDEF` is ahead of every stub at address zero. */
  lemma LookupsSkipStubs(arena: seq<Symbol>, listed: seq<Ptr>, symbols: seq<Ptr>, address: nat, i: nat)
    requires |listed| >= 4 && listed <= symbols && Reserved(arena, symbols)
    requires forall k :: |listed| <= k < |symbols| ==> arena[symbols[k]].address == 0
    requires Finds(arena, symbols, address, i)
    ensures 0 < i < |listed|
  {
    ReservedLookups(arena, symbols, address, i);
  }

  /** The arena after one import: the new stub, and the trampoline renamed. */
  function AfterImport(arena: seq<Symbol>, tramp: Ptr): (r: seq<Symbol>)
    requires tramp < |arena|
    ensures |r| == |arena| + 1
  {
    var stub := Symbol(arena[tramp].name, 0, 0, STT_FUNC, STB_GLOBAL, 0);
    (arena + [stub])[tramp := arena[tramp].(name := arena[tramp].name + "_tramp")]
  }

  lemma TrampsDifferPrefix(done: seq<RplImport>, imp: RplImport)
    requires TrampsDiffer(done + [imp])
    ensures TrampsDiffer(done)
    ensures forall k :: 0 <= k < |done| ==> done[k].trampAddr != imp.trampAddr
  {
    var more := done + [imp];
    assert more[|done|] == imp;
    assert forall k :: 0 <= k < |done| ==> more[k] == done[k];
  }

  lemma ImportMovesName(before: seq<Symbol>, arena: seq<Symbol>, done: seq<RplImport>, imp: RplImport)
    requires |arena| == |before| + |done| && TrampsAt(before, done)
    requires imp.tramp < |before| && before[imp.tramp].address == imp.trampAddr
    requires OnlyNamesMoved(before, arena, done) && NamesMoved(before, arena, done)
    ensures TrampsAt(before, done + [imp])
    ensures NamesMoved(before, AfterImport(arena, imp.tramp), done + [imp])
  {
    if TrampsDiffer(done + [imp]) {
      TrampsDifferPrefix(done, imp);
      assert !IsTramp(imp.tramp, done);
    }
  }

  lemma ImportOnlyMovesName(before: seq<Symbol>, arena: seq<Symbol>, done: seq<RplImport>, imp: RplImport)
    requires |before| <= |arena| && imp.tramp < |before|
    requires OnlyNamesMoved(before, arena, done)
    ensures OnlyNamesMoved(before, AfterImport(arena, imp.tramp), done + [imp])
  {
    var more := done + [imp];
    assert more[|done|] == imp;
    forall p | 0 <= p < |before| && IsTramp(p, done)
      ensures IsTramp(p, more)
    {
      var k :| 0 <= k < |done| && done[k].tramp == p;
      assert more[k].tramp == p;
    }
    assert IsTramp(imp.tramp, more);
  }

  lemma ImportAddsStub(before: seq<Symbol>, listed: seq<Ptr>, arena: seq<Symbol>, symbols: seq<Ptr>,
                       done: seq<RplImport>, imp: RplImport)
    requires |listed| >= 4 && StubsAdded(before, listed, arena, symbols, done)
    requires imp.tramp < |before| && imp.tramp != symbols[0] && imp.stub == |arena|
    ensures StubsAdded(before, listed, AfterImport(arena, imp.tramp), symbols + [imp.stub], done + [imp])
  {
    assert StubsOf(done + [imp]) == StubsOf(done) + [imp.stub];
    var arena', symbols' := AfterImport(arena, imp.tramp), symbols + [imp.stub];
    assert Distinct(symbols');
    assert forall i :: 0 <= i < 4 ==> symbols'[i] == symbols[i];
  }

  lemma ImportStep(before: seq<Symbol>, listed: seq<Ptr>, arena: seq<Symbol>, symbols: seq<Ptr>,
                   done: seq<RplImport>, imp: RplImport, i: nat)
    requires |listed| >= 4 && Allocated(before, listed)
    requires ImportsRead(before, listed, arena, symbols, done)
    requires Finds(arena, symbols, imp.trampAddr, i) && imp.tramp == symbols[i] && imp.stub == |arena|
    ensures ImportsRead(before, listed, AfterImport(arena, imp.tramp), symbols + [imp.stub], done + [imp])
  {
    LookupsSkipStubs(arena, listed, symbols, imp.trampAddr, i);
    ImportAddsStub(before, listed, arena, symbols, done, imp);
    ImportOnlyMovesName(before, arena, done, imp);
    ImportMovesName(before, arena, done, imp);
    EarlierFinds(before, listed, arena, symbols, done, imp.trampAddr, i);
    ImportSettles(before, listed, arena, done, imp, i);
  }

  /** What a search answers now it would have answered before the imports. */
  lemma EarlierFinds(before: seq<Symbol>, listed: seq<Ptr>, arena: seq<Symbol>, symbols: seq<Ptr>,
                     done: seq<RplImport>, address: nat, i: nat)
    requires Allocated(before, listed) && StubsAdded(before, listed, arena, symbols, done)
    requires OnlyNamesMoved(before, arena, done) && Finds(arena, symbols, address, i) && i < |listed|
    ensures Finds(before, listed, address, i)
  {
    forall j | 0 <= j < |listed|
      ensures arena[symbols[j]].(name := before[listed[j]].name) == before[listed[j]]
    {
      assert symbols[j] == listed[j];
    }
  }

  lemma ImportSettles(before: seq<Symbol>, listed: seq<Ptr>, arena: seq<Symbol>, done: seq<RplImport>,
                      imp: RplImport, i: nat)
    requires TrampsSettled(before, listed, arena, done) && Finds(before, listed, imp.trampAddr, i)
    requires listed[i] == imp.tramp < |arena|
    ensures TrampsSettled(before, listed, AfterImport(arena, imp.tramp), done + [imp])
  {
    var more, arena' := done + [imp], AfterImport(arena, imp.tramp);
    forall k | 0 <= k < |more|
      ensures TrampSettled(before, listed, arena', more[k])
    {
      if k < |done| {
        assert TrampSettled(before, listed, arena, done[k]);
      }
    }
  }

  lemma NoneRead(before: seq<Symbol>, listed: seq<Ptr>)
    requires Reserved(before, listed)
    ensures ImportsRead(before, listed, before, listed, [])
  {
    assert listed + StubsOf([]) == listed;
  }

  /** Imports make no address known that was not, and hide none. */
  lemma SameKnown(before: seq<Symbol>, listed: seq<Ptr>, arena: seq<Symbol>, symbols: seq<Ptr>,
                  done: seq<RplImport>, address: nat)
    requires |listed| >= 4 && Allocated(before, listed) && ImportsRead(before, listed, arena, symbols, done)
    ensures Known(arena, symbols, address) <==> Known(before, listed, address)
  {
    if Known(before, listed, address) {
      StillKnown(before, listed, arena, symbols, done, address);
    }
    if Known(arena, symbols, address) {
      var i :| 0 <= i < |symbols| && arena[symbols[i]].address == address;
      assert symbols[3] == listed[3] && before[listed[3]].address == 0;
      if i < |listed| {
        assert before[listed[i]].address == address;
      } else {
        assert symbols[i] == StubsOf(done)[i - |listed|];
      }
    }
  }

  lemma SameSearch(read: (seq<Symbol>, seq<Ptr>, seq<RplImport>) -> bool, before: seq<Symbol>, listed: seq<Ptr>,
                   arena: seq<Symbol>, symbols: seq<Ptr>, done: seq<RplImport>, address: nat)
    requires |listed| >= 4 && Allocated(before, listed) && SaysRead(read, before, listed) && read(arena, symbols, done)
    ensures Allocated(arena, symbols) && (Known(arena, symbols, address) <==> Known(before, listed, address))
  {
    assert ImportsRead(before, listed, arena, symbols, done);
    SameKnown(before, listed, arena, symbols, done, address);
  }

  /** What a search for the trampoline answers makes an import. */
  lemma ImportMade(read: (seq<Symbol>, seq<Ptr>, seq<RplImport>) -> bool, before: seq<Symbol>, listed: seq<Ptr>,
                   arena: seq<Symbol>, symbols: seq<Ptr>, done: seq<RplImport>, imp: RplImport)
    requires |listed| >= 4 && Allocated(before, listed) && SaysRead(read, before, listed) && read(arena, symbols, done)
    requires Allocated(arena, symbols)
    requires exists i: nat :: Finds(arena, symbols, imp.trampAddr, i) && symbols[i] == imp.tramp
    requires imp.stub == |arena|
    ensures imp.tramp < |arena|
    ensures read(AfterImport(arena, imp.tramp), symbols + [imp.stub], done + [imp])
  {
    var i: nat :| Finds(arena, symbols, imp.trampAddr, i) && symbols[i] == imp.tramp;
    ReadIs(read, before, listed, arena, symbols, done);
    ImportStep(before, listed, arena, symbols, done, imp, i);
    ReadIs(read, before, listed, AfterImport(arena, imp.tramp), symbols + [imp.stub], done + [imp]);
  }

  lemma ReadIs(read: (seq<Symbol>, seq<Ptr>, seq<RplImport>) -> bool, before: seq<Symbol>, listed: seq<Ptr>,
               arena: seq<Symbol>, symbols: seq<Ptr>, done: seq<RplImport>)
    requires SaysRead(read, before, listed)
    ensures read(arena, symbols, done) <==> ImportsRead(before, listed, arena, symbols, done)
  {
  }

  /** A symbol known before the imports is still found by its address. */
  lemma StillKnown(before: seq<Symbol>, listed: seq<Ptr>, arena: seq<Symbol>, symbols: seq<Ptr>,
                   done: seq<RplImport>, address: nat)
    requires Allocated(before, listed) && Known(before, listed, address)
    requires ImportsRead(before, listed, arena, symbols, done)
    ensures Known(arena, symbols, address)
  {
    var i :| 0 <= i < |listed| && before[listed[i]].address == address;
    assert symbols[i] == listed[i];
  }

  class ElfFile {
    var arena: seq<Symbol>
    var symbols: seq<Ptr>
    var relocations: seq<Relocation>
    var libs: seq<Library>
    /** The symbols that have been destroyed. */
    ghost var freed: set<Ptr>

    constructor ()
      ensures arena == [] && symbols == [] && relocations == [] && libs == [] && freed == {}
    {
      arena, symbols, relocations, libs, freed := [], [], [], [], {};
    }

    /** Creates a symbol at the end of the list. */
    method AppendSymbol(s: Symbol)
      modifies this`arena, this`symbols
      ensures arena == old(arena) + [s] && symbols == old(symbols) + [|old(arena)|]
    {
      symbols := symbols + [|arena|];
      arena := arena + [s];
    }

    /** The reserved four symbols. */
    method AddDefaults()
      requires arena == [] && symbols == []
      modifies this`arena, this`symbols
      ensures TableRead(arena, symbols, [])
    {
      AppendSymbol(Symbol("", 0, 0, STT_NOTYPE, STB_LOCAL, 0));
      AppendSymbol(Symbol("$TEXT", CODE_ADDRESS, 0, STT_SECTION, STB_LOCAL, 0));
      AppendSymbol(Symbol("$DATA", DATA_ADDRESS, 0, STT_SECTION, STB_LOCAL, 0));
      AppendSymbol(Symbol("$UNDEF", 0, 0, STT_OBJECT, STB_GLOBAL, 0));
    }

    /** A copy of each kept entry of one table, in table order. */
    method ReadTable(entries: seq<InSymbol>, ghost done: seq<InSymbol>)
      requires TableRead(arena, symbols, done)
      modifies this`arena, this`symbols
      ensures TableRead(arena, symbols, done + entries)
    {
      ghost var table := done + entries;
      assert table[..|done|] == done;
      for i := 0 to |entries|
        invariant TableRead(arena, symbols, table[..|done| + i])
      {
        var sym := entries[i];
        var kind, binding := sym.info % 16, sym.info / 16 % 16;
        var symbol := Symbol(sym.name, sym.value, sym.size, kind, binding, 0);
        TableAppend(arena, symbols, table, |done| + i, symbol);
        if LOAD_ADDRESS <= sym.value < CODE_ADDRESS {
          continue;
        }
        if kind == STT_NOTYPE && sym.value == 0 {
          continue;
        }
        if kind == STT_FILE || kind == STT_SECTION {
          continue;
        }
        AppendSymbol(symbol);
      }
      assert table[..|table|] == table;
    }

    /**
     * The reserved four, then a copy of each kept entry of the tables, in file order; it fails exactly when there is
     * a symbol section of another name.
     */
    method ReadSymbols(tabs: seq<SymTab>) returns (ok: bool)
      requires arena == [] && symbols == []
      modifies this`arena, this`symbols
      ensures ok <==> SymTabsNamed(tabs)
      ensures ok ==> TableRead(arena, symbols, Entries(tabs))
    {
      AddDefaults();
      for i := 0 to |tabs|
        invariant SymTabsNamed(tabs[..i]) && TableRead(arena, symbols, Entries(tabs[..i]))
      {
        assert tabs[..i + 1][..i] == tabs[..i];
        if tabs[i].name != ".symtab" {
          return false;
        }
        ReadTable(tabs[i].entries, Entries(tabs[..i]));
      }
      assert tabs[..|tabs|] == tabs;
      ok := true;
    }

    /**
     * One pass of the stub loop: a new stub takes the trampoline's name, and the trampoline is renamed. Where no
     * symbol is found, the next thing the program does is to read the name through a null pointer.
     */
    method ReadImport(stubAddr: nat, trampAddr: nat,
                      ghost read: (seq<Symbol>, seq<Ptr>, seq<RplImport>) -> bool,
                      ghost before: seq<Symbol>, ghost listed: seq<Ptr>, ghost done: seq<RplImport>)
      returns (r: Option<RplImport>)
      requires |listed| >= 4 && Allocated(before, listed) && SaysRead(read, before, listed)
      requires read(arena, symbols, done)
      modifies this`arena, this`symbols
      ensures r.Some? <==> Known(before, listed, trampAddr)
      ensures r.Some? ==> r.value.stubAddr == stubAddr && r.value.trampAddr == trampAddr
      ensures r.Some? ==> read(arena, symbols, done + [r.value])
    {
      SameSearch(read, before, listed, arena, symbols, done, trampAddr);
      var found := FindSymbol(arena, symbols, trampAddr);
      if found.None? {
        return None;
      }
      var tramp := found.value;
      var imp := RplImport(tramp, |arena|, stubAddr, trampAddr);
      ImportMade(read, before, listed, arena, symbols, done, imp);
      AppendSymbol(Symbol(arena[tramp].name, 0, 0, STT_FUNC, STB_GLOBAL, 0));
      arena := arena[tramp := arena[tramp].(name := arena[tramp].name + "_tramp")];
      r := Some(imp);
    }

    /**
     * Reads every library: one stub symbol per import, after all earlier symbols and in import order. It goes through
     * exactly when every stub word is there and leads to a symbol.
     */
    method ReadImports(defs: seq<LibDef>, word: map<nat, nat>) returns (ok: bool)
      requires Reserved(arena, symbols) && libs == []
      modifies this`arena, this`symbols, this`libs
      ensures ok <==> forall l :: 0 <= l < |defs| ==> TrampsKnown(old(arena), old(symbols), defs[l], word)
      ensures ok ==> |libs| == |defs| && LibsFrom(libs, defs, word)
      ensures ok ==> ImportsRead(old(arena), old(symbols), arena, symbols, AllImports(libs))
    {
      ghost var before, listed := arena, symbols;
      ghost var read := (a, s, d) => ImportsRead(before, listed, a, s, d);
      NoneRead(before, listed);
      ok := ReadLibraries(defs, word, read, before, listed);
    }

    /** The loop over the libraries. */
    method ReadLibraries(defs: seq<LibDef>, word: map<nat, nat>,
                         ghost read: (seq<Symbol>, seq<Ptr>, seq<RplImport>) -> bool,
                         ghost before: seq<Symbol>, ghost listed: seq<Ptr>)
      returns (ok: bool)
      requires |listed| >= 4 && Allocated(before, listed) && SaysRead(read, before, listed)
      requires read(arena, symbols, []) && libs == []
      modifies this`arena, this`symbols, this`libs
      ensures ok <==> forall l :: 0 <= l < |defs| ==> TrampsKnown(before, listed, defs[l], word)
      ensures ok ==> |libs| == |defs| && LibsFrom(libs, defs, word) && read(arena, symbols, AllImports(libs))
    {
      for l := 0 to |defs|
        invariant |libs| == l && LibsFrom(libs, defs, word) && read(arena, symbols, AllImports(libs))
        invariant forall m :: 0 <= m < l ==> TrampsKnown(before, listed, defs[m], word)
      {
        var imports;
        ok, imports := ReadLibrary(defs[l], word, read, before, listed, AllImports(libs));
        if !ok {
          return;
        }
        var lib := Library(defs[l].name, imports);
        LibsAppend(libs, lib, defs, word);
        assert (libs + [lib])[..l] == libs;
        libs := libs + [lib];
      }
      ok := true;
    }

    /** The stub loop of one library. */
    method ReadLibrary(def: LibDef, word: map<nat, nat>,
                       ghost read: (seq<Symbol>, seq<Ptr>, seq<RplImport>) -> bool,
                       ghost before: seq<Symbol>, ghost listed: seq<Ptr>, ghost done: seq<RplImport>)
      returns (ok: bool, imports: seq<RplImport>)
      requires |listed| >= 4 && Allocated(before, listed) && SaysRead(read, before, listed)
      requires read(arena, symbols, done)
      modifies this`arena, this`symbols
      ensures ok <==> TrampsKnown(before, listed, def, word)
      ensures ok ==> ImportsFrom(Library(def.name, imports), def, word)
      ensures ok ==> read(arena, symbols, done + imports)
    {
      imports := [];
      var stubAddr := def.stubStart;
      assert done + imports == done;
      while stubAddr < def.stubEnd
        invariant StubsTo(before, listed, def, word, imports, stubAddr)
        invariant read(arena, symbols, done + imports)
      {
        StubNext(before, listed, def, word, imports, stubAddr);
        if stubAddr !in word {
          return false, imports;
        }
        var r := ReadImport(stubAddr, word[stubAddr], read, before, listed, done + imports);
        if r.None? {
          return false, imports;
        }
        StubsStep(before, listed, def, word, imports, stubAddr, r.value);
        assert done + (imports + [r.value]) == done + imports + [r.value];
        imports := imports + [r.value];
        stubAddr := stubAddr + 4;
      }
      StubsEnd(before, listed, def, word, imports, stubAddr);
      ok := true;
    }
  }
}
