/** The converter's input, and reading it as a whole. */
module ElfInput {
  import opened Words
  import opened ElfSymbols
  import opened ElfRead
  import opened ElfRelocs
  import opened ElfSections

  /**
   * What the program takes from the input file; `word` holds the words of the loader image by address, as far as some
   * section has data for them, and `mapped` all the addresses that some section has data for.
   */
  datatype Input = Input(
    symTabs: seq<SymTab>, defs: seq<LibDef>, word: map<nat, nat>, mapped: set<nat>,
    relas: seq<InRela>, dyn: seq<DynRela>, data: seq<DataSection>)
  {
    function Table(): seq<InSymbol> {
      Entries(symTabs)
    }
  }

  /** The addresses a search over the symbols can hit. */
  function KnownAddresses(table: seq<InSymbol>): Addresses {
    Addresses({0, CODE_ADDRESS, DATA_ADDRESS} + (set s | s in KeptSymbols(table) :: s.value), LabelAddresses(table))
  }

  /** A named symbol without type and size. */
  predicate IsLabel(s: InSymbol) {
    s.name != "" && s.info % 16 == STT_NOTYPE && s.size == 0
  }

  /** Symbol `j` is the first at its address, and no symbol there has a type. */
  predicate AnswersUntyped(kept: seq<InSymbol>, j: nat)
    requires j < |kept|
  {
    && kept[j].value !in {0, CODE_ADDRESS, DATA_ADDRESS}
    && (forall i :: 0 <= i < j ==> kept[i].value != kept[j].value)
    && forall i :: 0 <= i < |kept| && kept[i].value == kept[j].value ==> kept[i].info % 16 == STT_NOTYPE
  }

  /** A search for its address answers symbol `j`, and that is a label. */
  predicate AnswersLabel(kept: seq<InSymbol>, j: nat)
    requires j < |kept|
  {
    IsLabel(kept[j]) && AnswersUntyped(kept, j)
  }

  /** The addresses where a search answers a label. */
  function LabelAddresses(table: seq<InSymbol>): set<nat> {
    var kept := KeptSymbols(table);
    set j | 0 <= j < |kept| && AnswersLabel(kept, j) :: kept[j].value
  }

  /** What the program takes for granted: fields are 32-bit words. */
  ghost predicate WellFormed(input: Input) {
    && (forall s :: s in KeptSymbols(input.Table()) ==> s.value < TWO_TO_32)
    && (forall d :: d in input.data ==> d.address < TWO_TO_32)
    && (forall r :: r in input.relas ==> r.addend < TWO_TO_32)
    && (forall r :: r in input.dyn ==> r.addend < TWO_TO_32)
  }

  /** Every stub word is there and leads to a symbol. */
  ghost predicate StubsLead(input: Input) {
    forall l, a :: 0 <= l < |input.defs| && IsStubWord(input.defs[l], a) ==>
      a in input.word && input.word[a] in KnownAddresses(input.Table()).listed
  }

  predicate IsStubWord(def: LibDef, a: nat) {
    def.stubStart <= a < def.stubEnd && (a - def.stubStart) % 4 == 0
  }

  /** Everything the output has to carry: the static relocations, then those of the loader. */
  function AllExpected(imports: seq<RplImport>, input: Input): seq<Expect> {
    var known := KnownAddresses(input.Table());
    Expected(imports, known, input.relas) + ExpectedDyn(imports, known, input.dyn)
  }

  /** Every loader relocation is acceptable. */
  ghost predicate DynReadable(imports: seq<RplImport>, known: Addresses, dyn: seq<DynRela>) {
    forall i :: 0 <= i < |dyn| ==> DynAccepted(imports, known, dyn[i])
  }

  /**
   * How reading the relocations ends. It fails for a static relocation that is misplaced, and for a loader relocation
   * that is not acceptable, and uses a null pointer for a patch where there is no data. The first of these in the
   * program's order decides.
   */
  ghost function RelocationsEnd(imports: seq<RplImport>, known: Addresses, input: Input): Outcome {
    if MisplacedFirst(imports, known, input.mapped, input.relas) then Failed
    else if !NoneOffends(imports, known, input.mapped, input.relas) then BadPointer
    else if !DynReadable(imports, known, input.dyn) then Failed
    else Done
  }

  /**
   * How reading ends. First it fails for a symbol section of another name, then it uses a null pointer for a stub word
   * that is missing or leads to no symbol.
   */
  ghost function ReadingEnds(imports: seq<RplImport>, input: Input): Outcome {
    if !SymTabsNamed(input.symTabs) then Failed
    else if !StubsLead(input) then BadPointer
    else RelocationsEnd(imports, KnownAddresses(input.Table()), input)
  }

  lemma TableKnown(arena: seq<Symbol>, symbols: seq<Ptr>, table: seq<InSymbol>)
    requires TableRead(arena, symbols, table)
    ensures forall a :: Known(arena, symbols, a) <==> a in KnownAddresses(table).listed
  {
    var kept := KeptSymbols(table);
    forall a | Known(arena, symbols, a)
      ensures a in KnownAddresses(table).listed
    {
      var i :| 0 <= i < |symbols| && arena[symbols[i]].address == a;
      if i >= 4 {
        assert Copies(arena[4 + (i - 4)], kept[i - 4]);
      }
    }
    forall a | a in KnownAddresses(table).listed
      ensures Known(arena, symbols, a)
    {
      if a in (set s | s in kept :: s.value) {
        var s :| s in kept && s.value == a;
        var i :| 0 <= i < |kept| && kept[i] == s;
        assert Copies(arena[4 + i], kept[i]);
        assert arena[symbols[4 + i]].address == a;
      } else {
        assert arena[symbols[3]].address == 0 && arena[symbols[1]].address == CODE_ADDRESS
               && arena[symbols[2]].address == DATA_ADDRESS;
      }
    }
  }

  /** A search over the table answers a prunable symbol exactly at the labels. */
  lemma TableLabels(arena: seq<Symbol>, symbols: seq<Ptr>, table: seq<InSymbol>, a: nat, i: nat)
    requires TableRead(arena, symbols, table) && Finds(arena, symbols, a, i)
    ensures Prunable(arena[i]) <==> a in LabelAddresses(table)
  {
    var kept := KeptSymbols(table);
    assert forall k :: 0 <= k < |kept| ==> Copies(arena[symbols[4 + k]], kept[k]);
    assert TypedAt(arena[symbols[1]], CODE_ADDRESS) && TypedAt(arena[symbols[2]], DATA_ADDRESS);
    assert TypedAt(arena[symbols[3]], 0);
    if Prunable(arena[i]) {
      assert i >= 4 && !TypedAt(arena[symbols[i]], a);
      assert AnswersLabel(kept, i - 4);
    }
    if a in LabelAddresses(table) {
      var j :| 0 <= j < |kept| && AnswersLabel(kept, j) && kept[j].value == a;
      assert At(arena[symbols[4 + j]], a);
      assert i >= 4 && kept[i - 4].value == a;
    }
  }

  lemma LabelsAreKnown(table: seq<InSymbol>)
    ensures LabelAddresses(table) <= KnownAddresses(table).listed
  {
    var kept := KeptSymbols(table);
    forall a | a in LabelAddresses(table)
      ensures a in KnownAddresses(table).listed
    {
      var j :| 0 <= j < |kept| && AnswersLabel(kept, j) && kept[j].value == a;
      assert kept[j] in kept;
    }
  }

  lemma ImportsKeepList(before: seq<Symbol>, listed: seq<Ptr>, arena: seq<Symbol>, symbols: seq<Ptr>,
                        done: seq<RplImport>)
    requires |listed| == |before| >= 4 && (forall i :: 0 <= i < |listed| ==> listed[i] == i)
    requires ImportsRead(before, listed, arena, symbols, done)
    ensures SymbolsRead(arena, symbols, done)
  {
    forall i | 0 <= i < |symbols|
      ensures symbols[i] == i
    {
      if i >= |before| {
        assert symbols[i] == StubsOf(done)[i - |before|];
      }
    }
  }

  /** Reading imports leaves the labels what they are, for addresses that belong to no import. */
  lemma ImportsKeepLabels(before: seq<Symbol>, listed: seq<Ptr>, arena: seq<Symbol>, symbols: seq<Ptr>,
                          done: seq<RplImport>, table: seq<InSymbol>)
    requires TableRead(before, listed, table)
    requires ImportsRead(before, listed, arena, symbols, done) && SymbolsRead(arena, symbols, done)
    ensures LabelsAre(arena, symbols, done, LabelAddresses(table))
  {
    forall a, i: nat | FirstImport(done, a).None? && Finds(arena, symbols, a, i)
      ensures Prunable(arena[symbols[i]]) <==> a in LabelAddresses(table)
    {
      LookupsSkipStubs(arena, listed, symbols, a, i);
      FirstImportIsListed(done, a);
      FindsBefore(before, listed, arena, symbols, done, a, i);
      TableLabels(before, listed, table, a, i);
    }
  }

  lemma FindsBefore(before: seq<Symbol>, listed: seq<Ptr>, arena: seq<Symbol>, symbols: seq<Ptr>,
                    done: seq<RplImport>, a: nat, i: nat)
    requires |listed| == |before| >= 4 && (forall k :: 0 <= k < |listed| ==> listed[k] == k)
    requires ImportsRead(before, listed, arena, symbols, done) && SymbolsRead(arena, symbols, done)
    requires Finds(arena, symbols, a, i) && i < |before|
    requires forall imp :: imp in done ==> !Hits(imp, a)
    ensures Finds(before, listed, a, i) && arena[i] == before[i]
  {
    EarlierFinds(before, listed, arena, symbols, done, a, i);
    forall k | 0 <= k < |done|
      ensures done[k].tramp != i
    {
      assert done[k] in done;
    }
  }

  lemma ImportsKeepKnown(before: seq<Symbol>, listed: seq<Ptr>, arena: seq<Symbol>, symbols: seq<Ptr>,
                         done: seq<RplImport>, known: set<nat>)
    requires Allocated(before, listed) && 0 in known && (forall a :: Known(before, listed, a) <==> a in known)
    requires |listed| == |before| && (forall i :: 0 <= i < |listed| ==> listed[i] == i)
    requires ImportsRead(before, listed, arena, symbols, done) && SymbolsRead(arena, symbols, done)
    ensures forall a :: Known(arena, symbols, a) <==> a in known
  {
    forall a
      ensures Known(arena, symbols, a) <==> a in known
    {
      if Known(arena, symbols, a) {
        var i :| 0 <= i < |symbols| && arena[symbols[i]].address == a;
        assert i < |before| ==> before[listed[i]].address == a;
      }
      if a in known {
        assert Known(before, listed, a);
        StillKnown(before, listed, arena, symbols, done, a);
      }
    }
  }

  /** All of it together. */
  lemma NamesAreRead(before: seq<Symbol>, listed: seq<Ptr>, arena: seq<Symbol>, symbols: seq<Ptr>,
                     done: seq<RplImport>, table: seq<InSymbol>)
    requires TableRead(before, listed, table) && ImportsRead(before, listed, arena, symbols, done)
    ensures NamesAre(arena, symbols, done, table)
  {
    ImportsKeepList(before, listed, arena, symbols, done);
    TableKnown(before, listed, table);
    ImportsKeepKnown(before, listed, arena, symbols, done, KnownAddresses(table).listed);
    ImportsKeepLabels(before, listed, arena, symbols, done, table);
    LabelsAreKnown(table);
    TableIsRead(before, listed, arena, symbols, done, table);
  }

  // ---------- Which symbols of the table will be pruned ----------

  /** A symbol without type and size, which a name makes a label. */
  predicate IsNote(s: InSymbol) {
    s.info % 16 == STT_NOTYPE && s.size == 0
  }

  /** Reading imports gives symbol `j` a name: it is what a search for some trampoline answers. */
  ghost predicate GetsName(imports: seq<RplImport>, kept: seq<InSymbol>, j: nat)
    requires j < |kept|
  {
    AnswersUntyped(kept, j) && exists imp :: imp in imports && imp.trampAddr == kept[j].value
  }

  /** Symbol `j` of the table will be pruned. */
  ghost predicate IsPruned(imports: seq<RplImport>, kept: seq<InSymbol>, j: nat)
    requires j < |kept|
  {
    IsNote(kept[j]) && (kept[j].name != "" || GetsName(imports, kept, j))
  }

  /** What the arena says of the table once imports have been read. */
  ghost predicate TableStands(arena: seq<Symbol>, imports: seq<RplImport>, table: seq<InSymbol>) {
    var kept := KeptSymbols(table);
    && |arena| == SymbolCount(table, imports)
    && forall j :: 0 <= j < |kept| ==> EntryStands(arena, imports, kept, j)
  }

  ghost predicate EntryStands(arena: seq<Symbol>, imports: seq<RplImport>, kept: seq<InSymbol>, j: nat)
    requires j < |kept| && 4 + j < |arena|
  {
    var s := arena[4 + j];
    && s.address == kept[j].value && s.size == kept[j].size
    && s.kind == kept[j].info % 16 && s.binding == kept[j].info / 16 % 16
    && (s.name == kept[j].name || exists imp :: imp in imports && imp.trampAddr == kept[j].value)
    && (Prunable(s) <==> IsPruned(imports, kept, j))
  }

  /** An untyped symbol is what a search for its address answers exactly when the table says so. */
  lemma UntypedAnswer(arena: seq<Symbol>, symbols: seq<Ptr>, table: seq<InSymbol>, j: nat)
    requires TableRead(arena, symbols, table) && j < |KeptSymbols(table)|
    requires KeptSymbols(table)[j].info % 16 == STT_NOTYPE
    ensures AnswersUntyped(KeptSymbols(table), j) <==> Finds(arena, symbols, KeptSymbols(table)[j].value, 4 + j)
  {
    var kept, a := KeptSymbols(table), KeptSymbols(table)[j].value;
    assert forall k :: 0 <= k < |kept| ==> Copies(arena[symbols[4 + k]], kept[k]);
    assert TypedAt(arena[symbols[1]], CODE_ADDRESS) && TypedAt(arena[symbols[2]], DATA_ADDRESS);
    assert TypedAt(arena[symbols[3]], 0);
    if Finds(arena, symbols, a, 4 + j) {
      assert !TypedAt(arena[symbols[4 + j]], a);
      forall i | 0 <= i < |kept|
        ensures kept[i].value == a ==> kept[i].info % 16 == STT_NOTYPE && i >= j
      {
        assert !TypedAt(arena[symbols[4 + i]], a) && (i < j ==> !At(arena[symbols[4 + i]], a));
      }
    }
    if AnswersUntyped(kept, j) {
      forall i | 0 <= i < |symbols|
        ensures !TypedAt(arena[symbols[i]], a) && (i < 4 + j ==> !At(arena[symbols[i]], a))
      {
        if i >= 4 {
          assert Copies(arena[symbols[4 + (i - 4)]], kept[i - 4]);
        }
      }
    }
  }

  lemma FindsOnce(arena: seq<Symbol>, symbols: seq<Ptr>, a: nat, i: nat, j: nat)
    requires Allocated(arena, symbols) && Finds(arena, symbols, a, i) && Finds(arena, symbols, a, j)
    ensures i == j
  {
  }

  /** An untyped symbol of the table is a trampoline exactly when it gets its name from an import. */
  lemma TrampGetsName(before: seq<Symbol>, listed: seq<Ptr>, arena: seq<Symbol>, done: seq<RplImport>,
                      table: seq<InSymbol>, j: nat)
    requires TableRead(before, listed, table) && TrampsSettled(before, listed, arena, done)
    requires j < |KeptSymbols(table)| && KeptSymbols(table)[j].info % 16 == STT_NOTYPE
    ensures IsTramp(4 + j, done) <==> GetsName(done, KeptSymbols(table), j)
  {
    if IsTramp(4 + j, done) {
      TrampIsAnswer(before, listed, arena, done, table, j);
    }
    if GetsName(done, KeptSymbols(table), j) {
      AnswerIsTramp(before, listed, arena, done, table, j);
    }
  }

  lemma TrampIsAnswer(before: seq<Symbol>, listed: seq<Ptr>, arena: seq<Symbol>, done: seq<RplImport>,
                      table: seq<InSymbol>, j: nat)
    requires TableRead(before, listed, table) && TrampsSettled(before, listed, arena, done)
    requires j < |KeptSymbols(table)| && KeptSymbols(table)[j].info % 16 == STT_NOTYPE && IsTramp(4 + j, done)
    ensures GetsName(done, KeptSymbols(table), j)
  {
    UntypedAnswer(before, listed, table, j);
    var k :| 0 <= k < |done| && done[k].tramp == 4 + j;
    assert TrampSettled(before, listed, arena, done[k]);
    var i: nat :| Finds(before, listed, done[k].trampAddr, i) && listed[i] == done[k].tramp;
    assert i == 4 + j && Copies(before[4 + j], KeptSymbols(table)[j]);
    assert done[k] in done;
  }

  lemma AnswerIsTramp(before: seq<Symbol>, listed: seq<Ptr>, arena: seq<Symbol>, done: seq<RplImport>,
                      table: seq<InSymbol>, j: nat)
    requires TableRead(before, listed, table) && TrampsSettled(before, listed, arena, done)
    requires j < |KeptSymbols(table)| && KeptSymbols(table)[j].info % 16 == STT_NOTYPE
    requires GetsName(done, KeptSymbols(table), j)
    ensures IsTramp(4 + j, done)
  {
    var a := KeptSymbols(table)[j].value;
    UntypedAnswer(before, listed, table, j);
    var imp :| imp in done && imp.trampAddr == a;
    var k :| 0 <= k < |done| && done[k] == imp;
    assert TrampSettled(before, listed, arena, done[k]);
    var i: nat :| Finds(before, listed, a, i) && listed[i] == imp.tramp;
    FindsOnce(before, listed, a, i, 4 + j);
  }

  lemma TrampAt(before: seq<Symbol>, listed: seq<Ptr>, arena: seq<Symbol>, done: seq<RplImport>, p: Ptr)
    requires TrampsSettled(before, listed, arena, done) && IsTramp(p, done) && p < |before|
    ensures exists imp :: imp in done && imp.trampAddr == before[p].address
  {
    var k :| 0 <= k < |done| && done[k].tramp == p;
    assert TrampSettled(before, listed, arena, done[k]) && done[k] in done;
  }

  lemma EntryIsRead(before: seq<Symbol>, listed: seq<Ptr>, arena: seq<Symbol>, done: seq<RplImport>,
                    table: seq<InSymbol>, j: nat)
    requires TableRead(before, listed, table) && TrampsSettled(before, listed, arena, done)
    requires |before| <= |arena| && OnlyNamesMoved(before, arena, done) && j < |KeptSymbols(table)|
    ensures EntryStands(arena, done, KeptSymbols(table), j)
  {
    var kept, p := KeptSymbols(table), 4 + j;
    assert Copies(before[p], kept[j]) && arena[p].(name := before[p].name) == before[p];
    if IsTramp(p, done) {
      TrampAt(before, listed, arena, done, p);
    }
    if kept[j].info % 16 == STT_NOTYPE {
      TrampGetsName(before, listed, arena, done, table, j);
      if IsTramp(p, done) {
        var k :| 0 <= k < |done| && done[k].tramp == p;
        assert TrampSettled(before, listed, arena, done[k]);
      }
    }
  }

  lemma TableIsRead(before: seq<Symbol>, listed: seq<Ptr>, arena: seq<Symbol>, symbols: seq<Ptr>,
                    done: seq<RplImport>, table: seq<InSymbol>)
    requires TableRead(before, listed, table) && ImportsRead(before, listed, arena, symbols, done)
    ensures TableStands(arena, done, table)
  {
    forall j | 0 <= j < |KeptSymbols(table)|
      ensures EntryStands(arena, done, KeptSymbols(table), j)
    {
      EntryIsRead(before, listed, arena, done, table, j);
    }
  }

  // ---------- Reading ----------

  /** The reserved four, the kept entries of the table, and a stub per import. */
  function SymbolCount(table: seq<InSymbol>, imports: seq<RplImport>): nat {
    4 + |KeptSymbols(table)| + |imports|
  }

  /** The object after its symbols and imports have been read. */
  ghost predicate NamesRead(file: ElfFile, input: Input)
    reads file
  {
    && LibsFrom(file.libs, input.defs, input.word) && |file.libs| == |input.defs|
    && NamesAre(file.arena, file.symbols, AllImports(file.libs), input.Table()) && file.freed == {}
  }

  ghost predicate NamesAre(arena: seq<Symbol>, symbols: seq<Ptr>, imports: seq<RplImport>, table: seq<InSymbol>) {
    && SymbolsRead(arena, symbols, imports) && KnownIs(arena, symbols, imports, KnownAddresses(table))
    && TableStands(arena, imports, table)
  }

  /** Every stub word addresses a symbol of the table. */
  lemma StubWordsKnown(arena: seq<Symbol>, symbols: seq<Ptr>, input: Input)
    requires TableRead(arena, symbols, input.Table())
    ensures (forall l :: 0 <= l < |input.defs| ==> TrampsKnown(arena, symbols, input.defs[l], input.word)) <==>
            StubsLead(input)
  {
    TableKnown(arena, symbols, input.Table());
    if StubsLead(input) {
      forall l, a: nat | 0 <= l < |input.defs| && IsStubWord(input.defs[l], a)
        ensures a in input.word && Known(arena, symbols, input.word[a])
      {
      }
    }
  }

  /** Reads the imports, when the symbols have been read. */
  method ReadImportsOf(file: ElfFile, input: Input) returns (ok: bool)
    requires TableRead(file.arena, file.symbols, input.Table()) && file.libs == [] && file.freed == {}
    modifies file`arena, file`symbols, file`libs
    ensures ok <==> StubsLead(input)
    ensures ok ==> NamesRead(file, input)
  {
    ghost var before, listed := file.arena, file.symbols;
    StubWordsKnown(before, listed, input);
    ok := file.ReadImports(input.defs, input.word);
    if ok {
      NamesAreRead(before, listed, file.arena, file.symbols, AllImports(file.libs), input.Table());
    }
  }

  /** Reads symbols and imports. */
  method ReadNames(input: Input) returns (outcome: Outcome, file: ElfFile)
    ensures fresh(file) && file.relocations == []
    ensures outcome.Failed? <==> !SymTabsNamed(input.symTabs)
    ensures outcome.Done? <==> SymTabsNamed(input.symTabs) && StubsLead(input)
    ensures outcome.Done? ==> NamesRead(file, input)
  {
    file := new ElfFile();
    var ok := file.ReadSymbols(input.symTabs);
    if !ok {
      return Failed, file;
    }
    ok := ReadImportsOf(file, input);
    outcome := if ok then Done else BadPointer;
  }

  /** Reads the relocations, when symbols and imports have been read. */
  method ReadBoth(file: ElfFile, input: Input, ghost imports: seq<RplImport>, ghost known: Addresses,
                  ghost stubs: nat)
    returns (outcome: Outcome)
    requires imports == AllImports(file.libs) && stubs == |file.arena| - |imports| && file.relocations == []
    requires SymbolsRead(file.arena, file.symbols, imports) && KnownIs(file.arena, file.symbols, imports, known)
    modifies file`relocations
    ensures outcome == RelocationsEnd(imports, known, input)
    ensures outcome.Done? ==>
              AllStandFor(file.arena, stubs, file.relocations,
                          Expected(imports, known, input.relas) + ExpectedDyn(imports, known, input.dyn))
  {
    outcome := ReadRelocations(file, input.relas, input.mapped, [], known);
    if !outcome.Done? {
      return;
    }
    ghost var es := Expected(imports, known, input.relas);
    NoneOffendsEnd(imports, known, input.mapped, input.relas);
    assert [] + es == es;
    var ok := ReadDynRelocations(file, input.dyn, es, known);
    outcome := if ok then Done else Failed;
  }

  /** Reads symbols, imports and relocations. */
  method ReadFile(input: Input) returns (outcome: Outcome, file: ElfFile)
    ensures fresh(file) && outcome == ReadingEnds(AllImports(file.libs), input)
    ensures SymTabsNamed(input.symTabs) && StubsLead(input) ==>
              LibsFrom(file.libs, input.defs, input.word) && |file.libs| == |input.defs|
    ensures outcome.Done? ==> NamesRead(file, input)
    ensures outcome.Done? ==>
              AllStandFor(file.arena, |file.arena| - |AllImports(file.libs)|, file.relocations,
                          AllExpected(AllImports(file.libs), input))
  {
    outcome, file := ReadNames(input);
    if !outcome.Done? {
      return;
    }
    ghost var imports := AllImports(file.libs);
    outcome := ReadBoth(file, input, imports, KnownAddresses(input.Table()), |file.arena| - |imports|);
  }
}
