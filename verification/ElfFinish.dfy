/** The last stages: string tables, final sizes, and file offsets. */
module ElfFinish {
  import opened Ctype
  import opened Words
  import opened Wrappers
  import opened ElfSymbols
  import opened ElfRead
  import opened ElfRelocs
  import opened ElfSections
  import opened ElfRelaSections
  import opened ElfImportSlots
  import opened ElfConvert
  import opened ElfEmit
  import opened ElfStrings
  import opened ElfLayout
  import opened ElfOutput
  import opened ElfIndex

  const SYMBOL_ENTRY_SIZE: nat := 16
  const FILE_INFO_SIZE: nat := 0x60

  // ---------- What the last stages keep ----------

  /** Sizes of section symbols and name positions may differ; nothing a relocation depends on does. */
  ghost predicate SameMeaning(later: seq<Symbol>, arena: seq<Symbol>) {
    && |later| == |arena|
    && forall p :: 0 <= p < |arena| ==>
         && later[p] == arena[p].(size := later[p].size, outNamePos := later[p].outNamePos)
         && (arena[p].kind != STT_SECTION ==> later[p].size == arena[p].size)
  }

  /** Every section symbol is at its section's address, and belongs to no other section. */
  ghost predicate OwnSymbols(arena: seq<Symbol>, sections: seq<OutputSection>) {
    && (forall i :: 0 <= i < |sections| && sections[i].sectionSymbol.Some? ==>
          OwnSymbol(arena, sections[i], sections[i].sectionSymbol.value))
    && forall i, j :: 0 <= i < j < |sections| && sections[i].sectionSymbol.Some? ==>
         sections[i].sectionSymbol != sections[j].sectionSymbol
  }

  predicate OwnSymbol(arena: seq<Symbol>, s: OutputSection, p: Ptr) {
    p < |arena| && arena[p].kind == STT_SECTION && arena[p].address == s.addr
  }

  /** The section's symbol has its size. */
  predicate SizeKnown(arena: seq<Symbol>, s: OutputSection) {
    s.sectionSymbol.Some? ==> s.sectionSymbol.value < |arena| && arena[s.sectionSymbol.value].size == s.size
  }

  /** Sections may get links, the size of their data and name positions, and new sections may follow. */
  ghost predicate SameContents(later: seq<OutputSection>, sections: seq<OutputSection>) {
    && |sections| <= |later|
    && forall i :: 0 <= i < |sections| ==>
         later[i] == sections[i].(link := later[i].link, size := later[i].size, namePos := later[i].namePos)
         && (sections[i].kind == SHT_NOBITS ==> later[i].size == sections[i].size)
         && (later[i].size == sections[i].size || later[i].size == sections[i].dataSize)
  }

  /** Entries keep their meaning, slots their addresses. */
  lemma MeaningStays(later: seq<Symbol>, arena: seq<Symbol>, symbols: seq<Ptr>, log: seq<(nat, Rela)>, es: seq<Expect>)
    requires SameMeaning(later, arena) && AllEmitted(arena, symbols, log, es)
    ensures AllEmitted(later, symbols, log, es)
  {
    forall k | 0 <= k < |es|
      ensures Emits(later, symbols, log[k].1, es[k])
    {
      assert Emits(arena, symbols, log[k].1, es[k]);
    }
  }

  /** The loop that links relocation sections, sets final sizes and updates section symbols. */
  method UpdateSections(w: RplWriter, symTabIndex: nat)
    requires OwnSymbols(w.file.arena, w.sections)
    modifies w`sections, w.file`arena
    ensures SameMeaning(w.file.arena, old(w.file.arena))
    ensures SameContents(w.sections, old(w.sections)) && |w.sections| == |old(w.sections)|
    ensures forall i :: 0 <= i < |w.sections| ==> SizeKnown(w.file.arena, w.sections[i])
    ensures forall i :: 0 <= i < |w.sections| ==>
      && (w.sections[i].kind == SHT_RELA ==> w.sections[i].link == symTabIndex)
      && (w.sections[i].kind != SHT_NOBITS ==> w.sections[i].size == w.sections[i].dataSize)
  {
    for i := 0 to |w.sections|
      invariant SameMeaning(w.file.arena, old(w.file.arena))
      invariant SameContents(w.sections, old(w.sections)) && |w.sections| == |old(w.sections)|
      invariant forall j :: 0 <= j < i ==> Updated(w.sections[j], symTabIndex)
      invariant forall j :: 0 <= j < i ==> SizeKnown(w.file.arena, w.sections[j])
      invariant forall j :: i <= j < |w.sections| ==> w.sections[j] == old(w.sections)[j]
    {
      var s := w.sections[i];
      if s.kind == SHT_RELA {
        s := s.(link := symTabIndex);
      }
      if s.kind != SHT_NOBITS {
        s := s.(size := s.dataSize);
      }
      if s.sectionSymbol.Some? {
        var p := s.sectionSymbol.value;
        w.file.arena := w.file.arena[p := w.file.arena[p].(address := s.addr, size := s.size)];
      }
      w.sections := w.sections[i := s];
    }
    assert forall i :: 0 <= i < |w.sections| ==> Updated(w.sections[i], symTabIndex);
  }

  predicate Updated(s: OutputSection, symTabIndex: nat) {
    && (s.kind == SHT_RELA ==> s.link == symTabIndex)
    && (s.kind != SHT_NOBITS ==> s.size == s.dataSize)
  }

  /** The list is ready for file offsets once the null section is empty. */
  lemma ReadyForLayout(later: seq<OutputSection>, filled: seq<OutputSection>, sections: seq<OutputSection>,
                       arena: seq<Symbol>, log: seq<(nat, Rela)>)
    requires SymbolsDescribe(arena, sections) && Filled(filled, sections, log) && SameContents(later, filled)
    requires forall k :: 0 <= k < |log| ==> log[k].0 > 0
    requires forall i :: |filled| <= i < |later| ==> later[i].offset == UNSET
    requires later[0].kind != SHT_NOBITS ==> later[0].size == later[0].dataSize
    ensures Unplaced(later)
  {
    NoEntries(log, 0);
    assert filled[0] == WithEntries(sections[0], []);
    forall i | 1 <= i < |later|
      ensures later[i].offset == UNSET
    {
      if i < |filled| {
        assert filled[i] == WithEntries(sections[i], EntriesOf(log, i)) && Untouched(sections[i]);
      }
    }
  }

  lemma {:induction false} NoEntries(log: seq<(nat, Rela)>, v: nat)
    requires forall k :: 0 <= k < |log| ==> log[k].0 != v
    ensures EntriesOf(log, v) == []
  {
    if log != [] {
      NoEntries(log[..|log| - 1], v);
    }
  }

  /** No entry goes to the null section: a relocation section comes after its owner. */
  lemma EntriesGoPastNull(sections: seq<OutputSection>, es: seq<Expect>, log: seq<(nat, Rela)>)
    requires Linked(sections) && AllGoTo(sections, es, log)
    ensures forall k :: 0 <= k < |log| ==> log[k].0 > 0
  {
    forall k | 0 <= k < |log|
      ensures log[k].0 > 0
    {
      assert GoesTo(sections, es[k].target, log[k].0);
    }
  }

  lemma FilledDescribes(filled: seq<OutputSection>, sections: seq<OutputSection>, arena: seq<Symbol>,
                        log: seq<(nat, Rela)>)
    requires SymbolsDescribe(arena, sections) && Filled(filled, sections, log)
    ensures OwnSymbols(arena, filled)
  {
    forall i | 0 <= i < |filled|
      ensures filled[i].sectionSymbol == if i == 0 then None else Some(|arena| - |sections| + i)
      ensures i > 0 ==> OwnSymbol(arena, filled[i], |arena| - |sections| + i)
    {
      assert filled[i] == WithEntries(sections[i], EntriesOf(log, i));
    }
  }

  // ---------- What the import sections keep ----------

  /** The import sections among those of the finished object, from `first` on, and where they start. */
  ghost predicate ImportsLaidOut(arena: seq<Symbol>, sections: seq<OutputSection>, n: nat, first: nat, base: nat,
                                 libs: seq<Library>)
  {
    && first + |libs| <= |sections| && BaseIs(base, arena, sections, n, first) && base % 4 == 0
    && LibrariesLaid(sections, first, base, libs)
  }

  ghost predicate LibrariesLaid(sections: seq<OutputSection>, first: nat, base: nat, libs: seq<Library>) {
    && first + |libs| <= |sections|
    && forall l :: 0 <= l < |libs| ==> CarriesLibrary(sections[first + l], LoadAddress(base, libs[..l]), libs[l])
  }

  /** Entries go to relocation sections only. */
  lemma NoneToOthers(sections: seq<OutputSection>, es: seq<Expect>, log: seq<(nat, Rela)>, i: nat)
    requires Linked(sections) && AllGoTo(sections, es, log)
    requires i < |sections| && sections[i].kind != SHT_RELA
    ensures EntriesOf(log, i) == []
  {
    forall k | 0 <= k < |log|
      ensures log[k].0 != i
    {
      assert GoesTo(sections, es[k].target, log[k].0);
    }
    NoEntries(log, i);
  }

  /** Sections keep their labels, and all but relocation sections their sizes. */
  ghost predicate LabelsStay(later: seq<OutputSection>, sections: seq<OutputSection>) {
    |sections| <= |later| && forall i :: 0 <= i < |sections| ==> SameLabel(later[i], sections[i])
  }

  predicate SameLabel(later: OutputSection, s: OutputSection) {
    && later.name == s.name && later.kind == s.kind && later.addr == s.addr
    && (s.kind != SHT_RELA ==> later.dataSize == s.dataSize)
    && (s.kind != SHT_RELA && (s.kind == SHT_NOBITS || s.dataSize == s.size) ==> later.size == s.size)
  }

  /** So they do through emission, completion and layout. */
  lemma CompletionKeepsLabels(sections: seq<OutputSection>, filled: seq<OutputSection>, ready: seq<OutputSection>,
                              last: seq<OutputSection>, es: seq<Expect>, log: seq<(nat, Rela)>)
    requires Linked(sections) && AllGoTo(sections, es, log) && Filled(filled, sections, log)
    requires SameContents(ready, filled) && SameSections(last, ready)
    ensures LabelsStay(last, sections)
  {
    forall i | 0 <= i < |sections|
      ensures SameLabel(last[i], sections[i])
    {
      assert filled[i] == WithEntries(sections[i], EntriesOf(log, i));
      if sections[i].kind != SHT_RELA {
        NoneToOthers(sections, es, log, i);
      }
    }
  }

  lemma LibraryStays(last: OutputSection, s: OutputSection, load: nat, lib: Library)
    requires SameLabel(last, s) && IsImportSection(s, load, lib)
    ensures CarriesLibrary(last, load, lib)
  {
  }

  lemma LibrariesStay(last: seq<OutputSection>, sections: seq<OutputSection>, first: nat, base: nat,
                      libs: seq<Library>)
    requires LabelsStay(last, sections) && SectionsAdded(sections, first, base, libs, |libs|)
    requires first + |libs| == |sections|
    ensures LibrariesLaid(last, first, base, libs)
  {
    forall l | 0 <= l < |libs|
      ensures CarriesLibrary(last[first + l], LoadAddress(base, libs[..l]), libs[l])
    {
      LibraryStays(last[first + l], sections[first + l], LoadAddress(base, libs[..l]), libs[l]);
    }
  }

  lemma NamesOfLabels(last: seq<OutputSection>, sections: seq<OutputSection>)
    requires LabelsStay(last, sections)
    ensures |sections| <= |last| && forall i :: 0 <= i < |sections| ==> last[i].name == sections[i].name
  {
  }

  lemma ImportsStay(later: seq<Symbol>, arena: seq<Symbol>, sections: seq<OutputSection>, last: seq<OutputSection>,
                    n: nat, base: nat, libs: seq<Library>)
    requires ImportsBuilt(arena, sections, n, base, libs) && SameMeaning(later, arena) && LabelsStay(last, sections)
    ensures ImportsLaidOut(later, last, n, |sections| - |libs|, base, libs)
  {
    var first := |sections| - |libs|;
    NamesOfLabels(last, sections);
    BaseStays(base, later, arena, last, sections, n, first);
    LibrariesStay(last, sections, first, base, libs);
  }

  // ---------- The stages ----------

  /** Adds the three tables after everything that has a section symbol. */
  method AddTables(w: RplWriter) returns (symTabIndex: nat, strTabIndex: nat, shStrTabIndex: nat)
    modifies w`sections
    ensures w.sections == old(w.sections) + [NewSection(".symtab", SHT_SYMTAB, 0, UNSET, 0, 0),
                                             NewSection(".strtab", SHT_STRTAB, 0, UNSET, 0, 0),
                                             NewSection(".shstrtab", SHT_STRTAB, 0, UNSET, 0, 0)]
    ensures symTabIndex == |old(w.sections)| && strTabIndex == symTabIndex + 1 && shStrTabIndex == symTabIndex + 2
  {
    symTabIndex := |w.sections|;
    w.sections := w.sections + [NewSection(".symtab", SHT_SYMTAB, 0, UNSET, 0, 0)];
    strTabIndex := |w.sections|;
    w.sections := w.sections + [NewSection(".strtab", SHT_STRTAB, 0, UNSET, 0, 0)];
    shStrTabIndex := |w.sections|;
    w.sections := w.sections + [NewSection(".shstrtab", SHT_STRTAB, 0, UNSET, 0, 0)];
  }

  /** The finished string tables, and every name's position in them. */
  ghost predicate NamesRecorded(arena: seq<Symbol>, symbols: seq<Ptr>, sections: seq<OutputSection>,
                                strTab: string, shStrTab: string)
    requires Allocated(arena, symbols)
  {
    && strTab == Table(SymbolNames(arena, symbols)) && shStrTab == Table(SectionNames(sections))
    && (forall i :: 0 <= i < |symbols| ==>
          arena[symbols[i]].outNamePos == Wrap32(Position(SymbolNames(arena, symbols), i)))
    && forall i :: 0 <= i < |sections| ==> sections[i].namePos == Wrap32(Position(SectionNames(sections), i))
  }

  /** Every recorded position leads back to its name: in `.strtab` for symbols, in `.shstrtab` for sections. */
  lemma NamesRoundTrip(arena: seq<Symbol>, symbols: seq<Ptr>, sections: seq<OutputSection>,
                       strTab: string, shStrTab: string)
    requires Allocated(arena, symbols) && NamesRecorded(arena, symbols, sections, strTab, shStrTab)
    requires |strTab| <= TWO_TO_32 && |shStrTab| <= TWO_TO_32
    ensures forall i :: 0 <= i < |symbols| && NUL !in arena[symbols[i]].name ==>
      StringAt(strTab, arena[symbols[i]].outNamePos) == arena[symbols[i]].name
    ensures forall i :: 0 <= i < |sections| && NUL !in sections[i].name ==>
      StringAt(shStrTab, sections[i].namePos) == sections[i].name
  {
    forall i | 0 <= i < |symbols| && NUL !in arena[symbols[i]].name
      ensures StringAt(strTab, arena[symbols[i]].outNamePos) == arena[symbols[i]].name
    {
      TableRoundTrip(SymbolNames(arena, symbols), i);
    }
    forall i | 0 <= i < |sections| && NUL !in sections[i].name
      ensures StringAt(shStrTab, sections[i].namePos) == sections[i].name
    {
      TableRoundTrip(SectionNames(sections), i);
    }
  }

  /** Gives a table section its data and its address. */
  function Tabled(s: OutputSection, size: nat, addr: nat): OutputSection {
    s.(dataSize := size, size := size, addr := addr)
  }

  /** A table section gets its header, in which its size is not known yet. */
  method OpenTable(w: RplWriter, i: nat)
    requires i < |w.sections|
    modifies w`sections
    ensures w.sections == old(w.sections)[i := old(w.sections)[i].(addr := 0, size := UNSET)]
  {
    w.sections := w.sections[i := w.sections[i].(addr := 0, size := UNSET)];
  }

  /** The list while symbols are indexed: the symbol table and the symbols' string table have been opened. */
  ghost predicate Opened(indexed: seq<OutputSection>, sections: seq<OutputSection>, k: nat) {
    && |indexed| == |sections| == k + 3
    && forall i :: 0 <= i < |sections| ==>
         indexed[i] == if k <= i < k + 2 then sections[i].(addr := 0, size := UNSET) else sections[i]
  }

  lemma OpenedCovers(indexed: seq<OutputSection>, sections: seq<OutputSection>, k: nat)
    requires Opened(indexed, sections, k)
    ensures Covered(indexed)
  {
    assert Spans(indexed[k]);
  }

  /** Symbols that go by their names still do, and names stay. */
  lemma NamesStay(later: seq<Symbol>, arena: seq<Symbol>, symbols: seq<Ptr>, laterSections: seq<OutputSection>,
                  sections: seq<OutputSection>)
    requires Allocated(arena, symbols) && SameMeaning(later, arena) && NamesThere(arena, symbols, sections)
    requires |sections| <= |laterSections|
    requires forall i :: 0 <= i < |sections| ==> laterSections[i].name == sections[i].name
    ensures Allocated(later, symbols) && NamesThere(later, symbols, laterSections)
    ensures AllBelow(later, symbols) <==> AllBelow(arena, symbols)
  {
    forall i | 0 <= i < |symbols| && GoesByName(later[symbols[i]])
      ensures exists j :: 0 <= j < |laterSections| && laterSections[j].name == later[symbols[i]].name
    {
      var j :| 0 <= j < |sections| && sections[j].name == arena[symbols[i]].name;
      assert laterSections[j].name == later[symbols[i]].name;
    }
  }

  /** Fills the symbols' string table. */
  method FillStrTab(w: RplWriter, k: nat) returns (strTab: string)
    requires Allocated(w.file.arena, w.file.symbols) && Distinct(w.file.symbols) && |w.sections| == k + 3
    requires NamesThere(w.file.arena, w.file.symbols, w.sections)
    modifies w`sections, w.file`arena
    ensures SameMeaning(w.file.arena, old(w.file.arena)) && Allocated(w.file.arena, w.file.symbols)
    ensures StrTabFilled(w.file.arena, w.file.symbols, strTab)
    ensures Opened(w.sections, old(w.sections), k) && NamesThere(w.file.arena, w.file.symbols, w.sections)
    ensures AllBelow(w.file.arena, w.file.symbols) <==> old(AllBelow(w.file.arena, w.file.symbols))
  {
    ghost var arena, sections := w.file.arena, w.sections;
    OpenTable(w, k + 1);
    strTab := BuildStrTab(w.file);
    StrTabNames(w.file.arena, arena, w.file.symbols);
    OpenTable(w, k);
    NamesStay(w.file.arena, arena, w.file.symbols, w.sections, sections);
  }

  /** The table holds the symbols' names at the positions recorded. */
  ghost predicate StrTabFilled(arena: seq<Symbol>, symbols: seq<Ptr>, strTab: string)
    requires Allocated(arena, symbols)
  {
    && strTab == Table(SymbolNames(arena, symbols))
    && forall i :: 0 <= i < |symbols| ==>
         arena[symbols[i]].outNamePos == Wrap32(Position(SymbolNames(arena, symbols), i))
  }

  /** Fills the symbols' string table, looks up the section of every symbol, and fills the sections' string table. */
  method FillStrings(w: RplWriter, k: nat)
    returns (ok: bool, strTab: string, shStrTab: string, shndx: seq<nat>, ghost indexed: seq<OutputSection>)
    requires Allocated(w.file.arena, w.file.symbols) && Distinct(w.file.symbols) && |w.sections| == k + 3
    requires NamesThere(w.file.arena, w.file.symbols, w.sections)
    modifies w`sections, w.file`arena
    ensures SameMeaning(w.file.arena, old(w.file.arena)) && Allocated(w.file.arena, w.file.symbols)
    ensures ok <==> old(AllBelow(w.file.arena, w.file.symbols))
    ensures ok ==> NamesRecorded(w.file.arena, w.file.symbols, w.sections, strTab, shStrTab)
    ensures ok ==> Opened(indexed, old(w.sections), k) && Indexes(w.file.arena, w.file.symbols, indexed, shndx)
    ensures ok ==> |w.sections| == |indexed| && forall i :: 0 <= i < |indexed| ==>
      w.sections[i] == indexed[i].(namePos := w.sections[i].namePos)
  {
    shStrTab := "";
    strTab := FillStrTab(w, k);
    indexed := w.sections;
    OpenedCovers(indexed, old(w.sections), k);
    ok, shndx := IndexSymbols(w.file, w.sections);
    if ok {
      shStrTab := BuildShStrTab(w);
      ShStrTabNames(w.sections, w.sections, indexed);
    }
  }

  /**
   * Fills the string tables and gives the three tables their data and addresses; it fails exactly when some symbol
   * is at the greatest address.
   */
  method FillTables(w: RplWriter, symTabIndex: nat)
    returns (ok: bool, strTab: string, shStrTab: string, shndx: seq<nat>, ghost indexed: seq<OutputSection>)
    requires Allocated(w.file.arena, w.file.symbols) && Distinct(w.file.symbols)
    requires |w.sections| == symTabIndex + 3 && NamesThere(w.file.arena, w.file.symbols, w.sections)
    modifies w`sections, w.file`arena
    ensures SameMeaning(w.file.arena, old(w.file.arena)) && Allocated(w.file.arena, w.file.symbols)
    ensures ok <==> old(AllBelow(w.file.arena, w.file.symbols))
    ensures ok ==> NamesRecorded(w.file.arena, w.file.symbols, w.sections, strTab, shStrTab)
    ensures ok ==> Opened(indexed, old(w.sections), symTabIndex) &&
                   Indexes(w.file.arena, w.file.symbols, indexed, shndx)
    ensures ok ==> TablesFilled(w.sections, old(w.sections), symTabIndex)
    ensures ok ==> TablesSized(w.sections, symTabIndex, |w.file.symbols|, strTab, shStrTab)
    ensures ok ==> TablesAt(w.sections, symTabIndex, old(w.predictSymTabSize), old(w.predictStrTabSize))
  {
    ok, strTab, shStrTab, shndx, indexed := FillStrings(w, symTabIndex);
    if ok {
      ghost var named := w.sections;
      PlaceTables(w, symTabIndex, |strTab|, |shStrTab|);
      TabledRecorded(w.sections, named, w.file.arena, w.file.symbols, strTab, shStrTab);
    }
  }

  /** The tables have their data: an entry per symbol, and the strings. */
  predicate TablesSized(sections: seq<OutputSection>, k: nat, symbols: nat, strTab: string, shStrTab: string) {
    && |sections| >= k + 3 && sections[k].dataSize == SYMBOL_ENTRY_SIZE * symbols
    && sections[k + 1].dataSize == |strTab| && sections[k + 2].dataSize == |shStrTab|
  }

  /** The three tables are one behind the other, with room for the predicted sizes of the first two. */
  predicate TablesAt(sections: seq<OutputSection>, k: nat, symTabSize: nat, strTabSize: nat) {
    && |sections| >= k + 3 && sections[k].addr == 0xC000_0000
    && sections[k + 1].addr == UpTo16(0xC000_0000 + symTabSize) % 0x1_0000_0000
    && sections[k + 2].addr == UpTo16(sections[k + 1].addr + strTabSize) % 0x1_0000_0000
  }

  lemma TablesInFront(later: seq<OutputSection>, sections: seq<OutputSection>, k: nat, symTabSize: nat,
                      strTabSize: nat)
    requires sections <= later && TablesAt(sections, k, symTabSize, strTabSize)
    ensures TablesAt(later, k, symTabSize, strTabSize)
  {
  }

  /** Only data and addresses of the last three sections change. */
  ghost predicate SameLabels(later: seq<OutputSection>, named: seq<OutputSection>, k: nat) {
    && |later| == |named|
    && (forall i :: 0 <= i < |named| ==>
         later[i].name == named[i].name && later[i].namePos == named[i].namePos && later[i].offset == named[i].offset)
    && forall i :: 0 <= i < k && i < |named| ==> later[i] == named[i]
  }

  method PlaceTables(w: RplWriter, symTabIndex: nat, strTabSize: nat, shStrTabSize: nat)
    requires |w.sections| == symTabIndex + 3
    modifies w`sections
    ensures SameLabels(w.sections, old(w.sections), symTabIndex)
    ensures w.sections[symTabIndex].dataSize == SYMBOL_ENTRY_SIZE * |w.file.symbols|
    ensures w.sections[symTabIndex + 1].dataSize == strTabSize && w.sections[symTabIndex + 2].dataSize == shStrTabSize
    ensures TablesAt(w.sections, symTabIndex, old(w.predictSymTabSize), old(w.predictStrTabSize))
  {
    RoundsUp(WIIU_LOAD_ADDRESS + w.predictSymTabSize);
    var loadAddress := WIIU_LOAD_ADDRESS;
    w.sections := w.sections[symTabIndex :=
      Tabled(w.sections[symTabIndex], SYMBOL_ENTRY_SIZE * |w.file.symbols|, loadAddress)];
    loadAddress := Wrap32(AlignUp(loadAddress + w.predictSymTabSize, 16));
    w.sections := w.sections[symTabIndex + 1 := Tabled(w.sections[symTabIndex + 1], strTabSize, loadAddress)];
    RoundsUp(loadAddress + w.predictStrTabSize);
    loadAddress := Wrap32(AlignUp(loadAddress + w.predictStrTabSize, 16));
    w.sections := w.sections[symTabIndex + 2 := Tabled(w.sections[symTabIndex + 2], shStrTabSize, loadAddress)];
  }

  lemma TabledRecorded(later: seq<OutputSection>, named: seq<OutputSection>, arena: seq<Symbol>, symbols: seq<Ptr>,
                       strTab: string, shStrTab: string)
    requires Allocated(arena, symbols) && NamesRecorded(arena, symbols, named, strTab, shStrTab)
    requires SameLabels(later, named, 0)
    ensures NamesRecorded(arena, symbols, later, strTab, shStrTab)
  {
    assert SectionNames(later) == SectionNames(named);
  }

  /** Every section has a name position; the last three also have data and an address, none has a file offset yet. */
  ghost predicate TablesFilled(later: seq<OutputSection>, sections: seq<OutputSection>, symTabIndex: nat) {
    && |later| == |sections| == symTabIndex + 3
    && (forall i :: 0 <= i < symTabIndex ==> later[i] == sections[i].(namePos := later[i].namePos))
    && forall i :: symTabIndex <= i < |later| ==> later[i].offset == sections[i].offset
  }

  lemma StrTabNames(later: seq<Symbol>, arena: seq<Symbol>, symbols: seq<Ptr>)
    requires Allocated(arena, symbols) && Recorded(later, arena, symbols, SymbolNames(arena, symbols), |symbols|)
    ensures SameMeaning(later, arena) && Allocated(later, symbols)
    ensures SymbolNames(later, symbols) == SymbolNames(arena, symbols)
  {
  }

  lemma ShStrTabNames(later: seq<OutputSection>, named: seq<OutputSection>, sections: seq<OutputSection>)
    requires Named(named, sections, SectionNames(sections), |named|) && later == named
    ensures SectionNames(later) == SectionNames(sections)
    ensures forall i :: 0 <= i < |later| ==> later[i].namePos == Wrap32(Position(SectionNames(later), i))
  {
    assert SectionNames(later) == SectionNames(sections);
  }

  /** The update and table stages together keep contents, and leave what they add without a file offset. */
  lemma ContentsCompose(filled: seq<OutputSection>, updated: seq<OutputSection>, tabled: seq<OutputSection>, k: nat)
    requires |filled| == k && |updated| == k + 3 && SameContents(updated, filled)
    requires TablesFilled(tabled, updated, k)
    requires forall i :: k <= i < k + 3 ==> updated[i].offset == UNSET
    ensures SameContents(tabled, filled)
    ensures forall i :: k <= i < k + 3 ==> tabled[i].offset == UNSET
    ensures forall i :: 0 <= i < k ==> tabled[i].size == updated[i].size
  {
    forall i | 0 <= i < k
      ensures tabled[i] == filled[i].(link := tabled[i].link, size := tabled[i].size, namePos := tabled[i].namePos)
      ensures tabled[i].size == updated[i].size
    {
      assert tabled[i] == updated[i].(namePos := tabled[i].namePos);
    }
  }

  /**
   * While symbols were indexed, all sections but the last three had the names and ranges they have now, and two tables
   * behind them seemed to lie over nearly all addresses.
   */
  ghost predicate IndexedAs(indexed: seq<OutputSection>, sections: seq<OutputSection>) {
    && 3 <= |indexed| <= |sections| && Spans(indexed[|indexed| - 3]) && Spans(indexed[|indexed| - 2])
    && forall i :: 0 <= i < |indexed| - 3 ==> SameRange(indexed[i], sections[i]) && SizeIsFinal(sections[i])
  }

  predicate SizeIsFinal(s: OutputSection) {
    s.kind != SHT_NOBITS ==> s.size == s.dataSize
  }

  lemma IndexedRanges(indexed: seq<OutputSection>, updated: seq<OutputSection>, tabled: seq<OutputSection>, k: nat)
    requires Opened(indexed, updated, k) && TablesFilled(tabled, updated, k)
    requires forall i :: 0 <= i < k ==> SizeIsFinal(updated[i])
    ensures IndexedAs(indexed, tabled) && |indexed| == k + 3
  {
    forall i | 0 <= i < k
      ensures SameRange(indexed[i], tabled[i]) && SizeIsFinal(tabled[i])
    {
      assert tabled[i] == updated[i].(namePos := tabled[i].namePos);
    }
  }

  /** Adds the tables and gives every section its final size. */
  method AddAndUpdate(w: RplWriter, ghost sections: seq<OutputSection>) returns (symTabIndex: nat)
    requires Allocated(w.file.arena, w.file.symbols) && NamesThere(w.file.arena, w.file.symbols, w.sections)
    requires SymbolsDescribe(w.file.arena, sections) && Filled(w.sections, sections, w.log)
    modifies w`sections, w.file`arena
    ensures symTabIndex == |old(w.sections)| && |w.sections| == symTabIndex + 3
    ensures SameMeaning(w.file.arena, old(w.file.arena)) && Allocated(w.file.arena, w.file.symbols)
    ensures SameContents(w.sections, old(w.sections))
    ensures forall i :: 0 <= i < |w.sections| ==> SizeIsFinal(w.sections[i])
    ensures forall i :: symTabIndex <= i < symTabIndex + 3 ==> w.sections[i].offset == UNSET
    ensures NamesThere(w.file.arena, w.file.symbols, w.sections)
    ensures AllBelow(w.file.arena, w.file.symbols) <==> old(AllBelow(w.file.arena, w.file.symbols))
  {
    ghost var filled, arena := w.sections, w.file.arena;
    FilledDescribes(filled, sections, arena, w.log);
    var strTabIndex, shStrTabIndex;
    symTabIndex, strTabIndex, shStrTabIndex := AddTables(w);
    ghost var added := w.sections;
    assert forall i :: 0 <= i < |filled| ==> added[i] == filled[i];
    assert forall i :: symTabIndex <= i < symTabIndex + 3 ==> added[i].offset == UNSET;
    UpdateSections(w, symTabIndex);
    NamesStay(w.file.arena, arena, w.file.symbols, w.sections, filled);
  }

  /** Adds, fills and measures the tables. */
  method FinishTables(w: RplWriter, ghost sections: seq<OutputSection>)
    returns (ok: bool, strTab: string, shStrTab: string, shndx: seq<nat>, ghost indexed: seq<OutputSection>)
    requires Allocated(w.file.arena, w.file.symbols) && Distinct(w.file.symbols)
    requires NamesThere(w.file.arena, w.file.symbols, w.sections)
    requires SymbolsDescribe(w.file.arena, sections) && Filled(w.sections, sections, w.log)
    modifies w`sections, w.file`arena
    ensures SameMeaning(w.file.arena, old(w.file.arena)) && Allocated(w.file.arena, w.file.symbols)
    ensures ok <==> old(AllBelow(w.file.arena, w.file.symbols))
    ensures ok ==> NamesRecorded(w.file.arena, w.file.symbols, w.sections, strTab, shStrTab)
    ensures ok ==> Indexes(w.file.arena, w.file.symbols, indexed, shndx) && IndexedAs(indexed, w.sections)
    ensures ok ==> |indexed| == |w.sections|
    ensures ok ==> |w.sections| == |sections| + 3 && SameContents(w.sections, old(w.sections))
    ensures ok ==> forall i :: |sections| <= i < |w.sections| ==> w.sections[i].offset == UNSET
    ensures ok ==> SizeIsFinal(w.sections[0])
    ensures ok ==> TablesAt(w.sections, |sections|, old(w.predictSymTabSize), old(w.predictStrTabSize))
  {
    ghost var filled, arena := w.sections, w.file.arena;
    var symTabIndex := AddAndUpdate(w, sections);
    ghost var updated, updatedArena := w.sections, w.file.arena;
    ok, strTab, shStrTab, shndx, indexed := FillTables(w, symTabIndex);
    if ok {
      ContentsCompose(filled, updated, w.sections, symTabIndex);
      IndexedRanges(indexed, updated, w.sections, symTabIndex);
    }
  }

  /**
   * Everything after the relocation entries; `named` are the sections with names in the table, `ready` is
   * the section list just before file offsets, and `indexed` the one that symbols were looked up in. It fails exactly
   * when some symbol is at the greatest address.
   */
  method FinishFile(w: RplWriter, ghost sections: seq<OutputSection>, ghost es: seq<Expect>)
    returns (ok: bool, strTab: string, shStrTab: string, shndx: seq<nat>, ghost named: seq<OutputSection>,
             ghost ready: seq<OutputSection>, ghost indexed: seq<OutputSection>)
    requires Allocated(w.file.arena, w.file.symbols) && Distinct(w.file.symbols)
    requires NamesThere(w.file.arena, w.file.symbols, w.sections)
    requires SymbolsDescribe(w.file.arena, sections) && Filled(w.sections, sections, w.log)
    requires Linked(sections) && AllGoTo(sections, es, w.log)
    modifies w`sections, w.file`arena
    ensures SameMeaning(w.file.arena, old(w.file.arena)) && Allocated(w.file.arena, w.file.symbols)
    ensures ok <==> old(AllBelow(w.file.arena, w.file.symbols))
    ensures ok ==> |ready| == |sections| + 5 && SameContents(ready, old(w.sections))
    ensures ok ==> NamesRecorded(w.file.arena, w.file.symbols, named, strTab, shStrTab)
    ensures ok ==> named <= ready && |ready| == |named| + 2
    ensures ok ==> Indexes(w.file.arena, w.file.symbols, indexed, shndx) && IndexedAs(indexed, ready)
    ensures ok ==> |ready| == |indexed| + 2
    ensures ok ==> Unplaced(ready) && w.sections == Layout(ready).0
    ensures ok ==> TablesAt(ready, |sections|, old(w.predictSymTabSize), old(w.predictStrTabSize))
  {
    ghost var filled, arena := w.sections, w.file.arena;
    ok, strTab, shStrTab, shndx, indexed := FinishTables(w, sections);
    named, ready := w.sections, w.sections;
    if ok {
      ready := AddLast(w, sections, es, filled, arena, w.predictSymTabSize, w.predictStrTabSize);
      IndexedLonger(indexed, named, ready);
    }
  }

  /** Two more sections behind the tables, and file offsets for all. */
  method AddLast(w: RplWriter, ghost sections: seq<OutputSection>, ghost es: seq<Expect>,
                 ghost filled: seq<OutputSection>, ghost arena: seq<Symbol>, ghost symTabSize: nat,
                 ghost strTabSize: nat)
    returns (ghost ready: seq<OutputSection>)
    requires SymbolsDescribe(arena, sections) && Filled(filled, sections, w.log)
    requires Linked(sections) && AllGoTo(sections, es, w.log)
    requires |w.sections| == |sections| + 3 && SameContents(w.sections, filled)
    requires forall i :: |sections| <= i < |w.sections| ==> w.sections[i].offset == UNSET
    requires SizeIsFinal(w.sections[0]) && TablesAt(w.sections, |sections|, symTabSize, strTabSize)
    modifies w`sections
    ensures old(w.sections) <= ready && |ready| == |sections| + 5 && SameContents(ready, filled)
    ensures Unplaced(ready) && w.sections == Layout(ready).0
    ensures TablesAt(ready, |sections|, symTabSize, strTabSize)
  {
    var count := |w.sections| + 2;
    ghost var named := w.sections;
    w.sections := w.sections + [NewSection("", SHT_RPL_CRCS, 0, UNSET, 0, 4 * count),
                                NewSection("", SHT_RPL_FILEINFO, 0, UNSET, 0, FILE_INFO_SIZE)];
    ready := w.sections;
    TablesInFront(ready, named, |sections|, symTabSize, strTabSize);
    EntriesGoPastNull(sections, es, w.log);
    ReadyForLayout(ready, filled, sections, arena, w.log);
    AssignOffsets(w);
  }

  lemma IndexedLonger(indexed: seq<OutputSection>, named: seq<OutputSection>, ready: seq<OutputSection>)
    requires IndexedAs(indexed, named) && named <= ready
    ensures IndexedAs(indexed, ready)
  {
  }
}
