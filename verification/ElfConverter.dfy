/** The converter from end to end: writing out an object that has been read. */
module ElfConverter {
  import opened Words
  import opened ElfSymbols
  import opened ElfRead
  import opened ElfRelocs
  import opened ElfSections
  import opened ElfRelaSections
  import opened ElfImportSlots
  import opened ElfConvert
  import opened ElfEmit
  import opened ElfLayout
  import opened ElfStrings
  import opened ElfOutput
  import opened ElfFinish
  import opened ElfIndex
  import opened ElfInput
  import opened ElfCarried
  import opened ElfEnds

  // ---------- The whole conversion ----------

  /** Input section `d` shares no address with another one. */
  ghost predicate Apart(data: seq<DataSection>, d: nat)
    requires d < |data|
  {
    forall c, a :: 0 <= c < |data| && c != d && DataContains(data[d], a) ==> !DataContains(data[c], a)
  }

  predicate DataContains(d: DataSection, a: nat) {
    d.address <= a < Wrap32(d.address + d.size)
  }

  /** The place an entry lands: the relocation section of the input section its target lies in, which it names. */
  ghost predicate LandsIn(sections: seq<OutputSection>, d: nat, v: nat) {
    1 + d < |sections| && v < |sections| && Owns(sections, 1 + d, v)
    && sections[v].kind == SHT_RELA && sections[v].info == 1 + d
  }

  /**
   * An entry whose target lies in an input section that shares no addresses goes to that section's
   * relocation section, whose `info` field is that section's index.
   */
  lemma HomeIsTargetSection(sections: seq<OutputSection>, data: seq<DataSection>, target: nat, d: nat, v: nat)
    requires Linked(sections) && Carries(sections, data) && d < |data| && Apart(data, d)
    requires DataContains(data[d], target) && GoesTo(sections, target, v)
    ensures LandsIn(sections, d, v)
  {
    ApartIsFirst(sections, data, target, d);
    ApartIsFirst(sections, data, data[d].address, d);
    var i: nat :| IsFirst(sections, target, i) && Owns(sections, i, v);
    OnlyFirst(sections, target, i, 1 + d);
    OnlyFirst(sections, sections[1 + d].addr, sections[v].info, 1 + d);
  }

  lemma ApartIsFirst(sections: seq<OutputSection>, data: seq<DataSection>, address: nat, d: nat)
    requires Carries(sections, data) && d < |data| && Apart(data, d) && DataContains(data[d], address)
    ensures IsFirst(sections, address, 1 + d)
  {
    forall j | 0 <= j < 1 + d
      ensures !Contains(sections[j], address)
    {
      if j > 0 {
        assert !DataContains(data[j - 1], address);
        assert sections[1 + (j - 1)].addr == data[j - 1].address;
      }
    }
  }

  /** What the finished sections keep of those that the entries went into. */
  lemma LandingStays(sections: seq<OutputSection>, filled: seq<OutputSection>, ready: seq<OutputSection>,
                     later: seq<OutputSection>, log: seq<(nat, Rela)>, d: nat, v: nat)
    requires LandsIn(sections, d, v) && Filled(filled, sections, log) && sections[v].relas == []
    requires SameContents(ready, filled) && SameSections(later, ready)
    ensures LandsIn(later, d, v) && later[v].relas == EntriesOf(log, v)
  {
    assert filled[1 + d] == WithEntries(sections[1 + d], EntriesOf(log, 1 + d));
    assert filled[v] == WithEntries(sections[v], EntriesOf(log, v));
  }

  lemma LayoutKeeps(ready: seq<OutputSection>)
    ensures SameSections(Layout(ready).0, ready)
  {
    var first := Pass(1, ready, 0, DataStart(|ready|));
    var second := Pass(2, first.0, 0, first.1);
    var third := Pass(3, second.0, 0, second.1);
    PassKeeps(1, ready, 0, DataStart(|ready|));
    PassKeeps(2, first.0, 0, first.1);
    PassKeeps(3, second.0, 0, second.1);
    PassKeeps(4, third.0, 0, third.1);
    SameTransitive(second.0, first.0, ready);
    SameTransitive(third.0, second.0, ready);
    SameTransitive(Layout(ready).0, third.0, ready);
  }

  /** In the finished object every entry has landed in the relocation section of its target's section. */
  ghost predicate AllLanded(sections: seq<OutputSection>, data: seq<DataSection>, es: seq<Expect>,
                            log: seq<(nat, Rela)>)
    requires |log| == |es|
  {
    forall k, d :: 0 <= k < |es| && 0 <= d < |data| && DataContains(data[d], es[k].target) && Apart(data, d) ==>
      LandsIn(sections, d, log[k].0) && sections[log[k].0].relas == EntriesOf(log, log[k].0)
  }

  lemma EntriesLand(sections: seq<OutputSection>, filled: seq<OutputSection>, ready: seq<OutputSection>,
                    data: seq<DataSection>, es: seq<Expect>, log: seq<(nat, Rela)>)
    requires Linked(sections) && Carries(sections, data) && Filled(filled, sections, log) && SameContents(ready, filled)
    requires AllGoTo(sections, es, log)
    ensures AllLanded(Layout(ready).0, data, es, log)
  {
    LayoutKeeps(ready);
    forall k, d | 0 <= k < |es| && 0 <= d < |data| && DataContains(data[d], es[k].target) && Apart(data, d)
      ensures LandsIn(Layout(ready).0, d, log[k].0)
      ensures Layout(ready).0[log[k].0].relas == EntriesOf(log, log[k].0)
    {
      HomeIsTargetSection(sections, data, es[k].target, d, log[k].0);
      LandingStays(sections, filled, ready, Layout(ready).0, log, d, log[k].0);
    }
  }

  lemma ExpectedFits(imports: seq<RplImport>, input: Input)
    requires WellFormed(input)
    ensures AllFit(AllExpected(imports, input))
  {
    var known := KnownAddresses(input.Table());
    StaticFits(imports, known, input.relas);
    DynFits(imports, known, input.dyn);
  }

  lemma {:induction false} StaticFits(imports: seq<RplImport>, known: Addresses, relas: seq<InRela>)
    requires forall r :: r in relas ==> r.addend < TWO_TO_32
    ensures AllFit(Expected(imports, known, relas))
  {
    if relas != [] {
      assert relas[|relas| - 1] in relas;
      StaticFits(imports, known, relas[..|relas| - 1]);
    }
  }

  lemma {:induction false} DynFits(imports: seq<RplImport>, known: Addresses, relas: seq<DynRela>)
    requires forall r :: r in relas ==> r.addend < TWO_TO_32
    ensures AllFit(ExpectedDyn(imports, known, relas))
  {
    if relas != [] {
      assert relas[|relas| - 1] in relas;
      DynFits(imports, known, relas[..|relas| - 1]);
    }
  }

  lemma TargetsMatch(arena: seq<Symbol>, stubs: nat, rs: seq<Relocation>, es: seq<Expect>, data: seq<DataSection>)
    requires AllStandFor(arena, stubs, rs, es)
    ensures AllReach(data, rs) <==> AllTargetsReach(data, es)
  {
    assert forall k :: 0 <= k < |rs| ==> StandsFor(arena, stubs, rs[k], es[k]);
  }

  /** The relocations: one entry each, in order, meaning what the input meant and landing where it belongs. */
  ghost predicate RelocationsConverted(w: RplWriter, es: seq<Expect>, data: seq<DataSection>)
    reads w, w.file
  {
    && AllTyped(w.log, es) && (|w.file.symbols| <= 0x100_0000 ==> AllEmitted(w.file.arena, w.file.symbols, w.log, es))
    && |w.log| == |es| && AllLanded(w.sections, data, es, w.log) && DataPlaced(w.sections, data)
  }

  /** The input's sections are there, behind the null section; only those of kind 8 have no data in the file. */
  ghost predicate DataPlaced(sections: seq<OutputSection>, data: seq<DataSection>) {
    && |sections| > |data|
    && forall d :: 0 <= d < |data| ==>
         var s := sections[1 + d];
         && s.name == data[d].name && s.kind == data[d].kind && s.addr == data[d].address
         && (s.kind != 4 ==> s.size == data[d].size && s.dataSize == if s.kind == 8 then 0 else s.size)
  }

  lemma DataStays(last: seq<OutputSection>, sections: seq<OutputSection>, data: seq<DataSection>)
    requires Carries(sections, data) && LabelsStay(last, sections)
    ensures DataPlaced(last, data)
  {
    forall d | 0 <= d < |data|
      ensures Brings(sections[1 + d], data[d]) && SameLabel(last[1 + d], sections[1 + d])
    {
    }
  }

  /**
   * The names and file offsets; `ready` is the section list just before offsets were assigned, and all of it
   * but the checksum and file-info sections is `named` in the section string table.
   */
  ghost predicate Finished(w: RplWriter, strTab: string, shStrTab: string,
                           named: seq<OutputSection>, ready: seq<OutputSection>)
    reads w, w.file
  {
    && Allocated(w.file.arena, w.file.symbols)
    && NamesRecorded(w.file.arena, w.file.symbols, named, strTab, shStrTab)
    && named <= ready && |ready| == |named| + 2
    && Unplaced(ready) && w.sections == Layout(ready).0
  }

  /**
   * The section recorded for every listed symbol: the first one of the finished object that contains it, or where
   * there is none in front of the symbol table, that table; for a section symbol at address zero the first of its name.
   */
  ghost predicate SymbolsPlaced(w: RplWriter, indexed: seq<OutputSection>, shndx: seq<nat>)
    reads w, w.file
  {
    && Allocated(w.file.arena, w.file.symbols) && Indexes(w.file.arena, w.file.symbols, indexed, shndx)
    && IndexedAs(indexed, w.sections) && |w.sections| == |indexed| + 2
  }

  /** Every library has its section and every import its slot, and every listed symbol exists. */
  ghost predicate ImportsPlaced(w: RplWriter, n: nat, base: nat)
    reads w, w.file
  {
    && ImportsInFront(w.file.arena, w.sections, n, base, w.file.libs)
    && Owned(w.file.arena, w.file.symbols, w.file.freed) && StubsTyped(w.file.arena, AllImports(w.file.libs))
  }

  /**
   * The three tables are in front of the last two sections, with the room predicted from the names of the symbols
   * that were listed when the load address was predicted.
   */
  ghost predicate TablesPlaced(sections: seq<OutputSection>, arena: seq<Symbol>, n: nat, imports: nat) {
    |sections| > 5 + imports && TablesRoomy(sections, arena, n, |sections| - 5 - imports)
  }

  ghost predicate TablesRoomy(sections: seq<OutputSection>, arena: seq<Symbol>, n: nat, first: nat) {
    && |sections| >= 5 && n >= 4 && first >= 1 && Allocated(arena, Order(n, first - 1))
    && TablesAt(sections, |sections| - 5, EntrySize(n + first - 1), StringSize(SymbolNames(arena, Order(n, first - 1))))
  }

  /** Import symbols are global functions without a size. */
  ghost predicate StubsTyped(arena: seq<Symbol>, imports: seq<RplImport>) {
    forall k :: 0 <= k < |imports| ==> imports[k].stub < |arena| && IsImportSymbol(arena[imports[k].stub])
  }

  predicate IsImportSymbol(s: Symbol) {
    s.kind == 2 && s.binding == 1 && s.size == 0
  }

  /** The import sections are those in front of the last five, and the slots are set. */
  ghost predicate ImportsInFront(arena: seq<Symbol>, sections: seq<OutputSection>, n: nat, base: nat,
                                 libs: seq<Library>)
  {
    && 5 + |libs| <= |sections| && ImportsLaidOut(arena, sections, n, |sections| - 5 - |libs|, base, libs)
    && SlotsSet(arena, base, libs, |libs|)
  }

  /** In the finished object the sections of two libraries do not overlap. */
  lemma PlacedImportsAreApart(arena: seq<Symbol>, sections: seq<OutputSection>, n: nat, first: nat, base: nat,
                              libs: seq<Library>, l: nat, m: nat)
    requires ImportsLaidOut(arena, sections, n, first, base, libs) && base + TotalSize(libs) < TWO_TO_32
    requires l < m < |libs|
    ensures sections[first + l].addr + sections[first + l].size <= sections[first + m].addr
  {
    assert CarriesLibrary(sections[first + l], LoadAddress(base, libs[..l]), libs[l]);
    assert CarriesLibrary(sections[first + m], LoadAddress(base, libs[..m]), libs[m]);
    ImportSectionsDisjoint(base, libs, l, m);
  }

  /** And every slot is in its library's section, past the header. */
  lemma PlacedSlotIsInside(arena: seq<Symbol>, sections: seq<OutputSection>, n: nat, first: nat, base: nat,
                           libs: seq<Library>, l: nat, i: nat)
    requires ImportsLaidOut(arena, sections, n, first, base, libs) && base + TotalSize(libs) < TWO_TO_32
    requires SlotsSet(arena, base, libs, |libs|) && l < |libs| && i < |libs[l].imports|
    ensures var s, stub := sections[first + l], libs[l].imports[i].stub;
            stub < |arena| && s.addr + 8 <= arena[stub].address <= s.addr + s.size - 8
  {
    assert CarriesLibrary(sections[first + l], LoadAddress(base, libs[..l]), libs[l]);
    assert SlotsOf(arena, LoadAddress(base, libs[..l]), libs[l].imports, |libs[l].imports|);
    SlotInSection(base, libs, l, i);
  }

  /**
   * Every import symbol is recorded in its own library's section, where no section in front of the import sections
   * reaches up to them.
   */
  lemma PlacedImportIsRecorded(arena: seq<Symbol>, symbols: seq<Ptr>, sections: seq<OutputSection>,
                               indexed: seq<OutputSection>, shndx: seq<nat>, n: nat, first: nat, base: nat,
                               libs: seq<Library>, l: nat, i: nat, k: nat)
    requires Allocated(arena, symbols) && Indexes(arena, symbols, indexed, shndx) && IndexedAs(indexed, sections)
    requires |indexed| == first + |libs| + 3 && ImportsLaidOut(arena, sections, n, first, base, libs)
    requires SlotsSet(arena, base, libs, |libs|) && StubsTyped(arena, AllImports(libs))
    requires base + TotalSize(libs) < TWO_TO_32 && l < |libs| && i < |libs[l].imports|
    requires k < |symbols| && symbols[k] == libs[l].imports[i].stub
    requires forall j :: 0 <= j < first ==> sections[j].addr + sections[j].size <= base
    ensures shndx[k] == first + l
  {
    StubTyped(arena, libs, l, i);
    assert SlotsOf(arena, LoadAddress(base, libs[..l]), libs[l].imports, |libs[l].imports|);
    IndexedLibraries(indexed, sections, first, base, libs);
    ImportIndexed(arena[symbols[k]], indexed, first, base, libs, l, i, shndx[k]);
  }

  lemma StubTyped(arena: seq<Symbol>, libs: seq<Library>, l: nat, i: nat)
    requires StubsTyped(arena, AllImports(libs)) && l < |libs| && i < |libs[l].imports|
    ensures libs[l].imports[i].stub < |arena| && arena[libs[l].imports[i].stub].kind == STT_FUNC
  {
    var k := ImportAt(libs, l, i);
  }

  /** The position of an import among all of them. */
  lemma {:induction false} ImportAt(libs: seq<Library>, l: nat, i: nat) returns (k: nat)
    requires l < |libs| && i < |libs[l].imports|
    ensures k < |AllImports(libs)| && AllImports(libs)[k] == libs[l].imports[i]
    decreases |libs|
  {
    var init := libs[..|libs| - 1];
    if l < |init| {
      k := ImportAt(init, l, i);
    } else {
      k := |AllImports(init)| + i;
    }
  }

  lemma IndexedLibraries(indexed: seq<OutputSection>, sections: seq<OutputSection>, first: nat, base: nat,
                         libs: seq<Library>)
    requires |indexed| == first + |libs| + 3 && IndexedAs(indexed, sections)
    requires forall l :: 0 <= l < |libs| ==> CarriesLibrary(sections[first + l], LoadAddress(base, libs[..l]), libs[l])
    ensures LibrariesIn(indexed, first, base, libs)
    ensures forall j :: 0 <= j < first ==>
      indexed[j].addr == sections[j].addr && indexed[j].size == sections[j].size
  {
    forall l | 0 <= l < |libs|
      ensures InLibrary(indexed[first + l], LoadAddress(base, libs[..l]), libs[l])
    {
      assert SameRange(indexed[first + l], sections[first + l]);
      assert CarriesLibrary(sections[first + l], LoadAddress(base, libs[..l]), libs[l]);
    }
    assert forall j :: 0 <= j < first ==> SameRange(indexed[j], sections[j]);
  }

  /** No listed symbol is at the greatest address, and those that go by their names have a section. */
  ghost predicate Placeable(arena: seq<Symbol>, symbols: seq<Ptr>, sections: seq<OutputSection>) {
    Allocated(arena, symbols) && NamesThere(arena, symbols, sections)
  }

  /**
   * Completes an object whose relocations have been emitted, without disturbing them; it fails exactly when some
   * symbol is at the greatest address.
   */
  method CompleteFile(w: RplWriter, ghost sections: seq<OutputSection>, ghost n: nat, ghost data: seq<DataSection>,
                      ghost es: seq<Expect>, ghost base: nat)
    returns (ok: bool, strTab: string, shStrTab: string, shndx: seq<nat>,
             ghost named: seq<OutputSection>, ghost ready: seq<OutputSection>, ghost indexed: seq<OutputSection>)
    requires Emitted(w, sections, n, data, es, base) && Placeable(w.file.arena, w.file.symbols, w.sections)
    requires StubsTyped(w.file.arena, AllImports(w.file.libs))
    modifies w`sections, w.file`arena
    ensures ok <==> old(AllBelow(w.file.arena, w.file.symbols))
    ensures ok ==> RelocationsConverted(w, es, data) && Finished(w, strTab, shStrTab, named, ready)
    ensures ok ==> ImportsPlaced(w, n, base) && SymbolsPlaced(w, indexed, shndx)
    ensures ok ==> SameMeaning(w.file.arena, old(w.file.arena)) && |w.sections| == |sections| + 5
    ensures ok ==> TablesAt(w.sections, |sections|, old(w.predictSymTabSize), old(w.predictStrTabSize))
  {
    ghost var filled, emitted := w.sections, w.file.arena;
    ok, strTab, shStrTab, shndx, named, ready, indexed := FinishFile(w, sections, es);
    if ok {
      TablesStay(ready, |sections|, w.predictSymTabSize, w.predictStrTabSize);
      Completes(w.file.arena, emitted, sections, filled, ready, w.file.symbols, w.file.freed, w.log, data, es, n, base,
                w.file.libs, indexed);
    }
  }

  lemma TablesArePlaced(sections: seq<OutputSection>, later: seq<Symbol>, arena: seq<Symbol>, n: nat, count: nat,
                        first: nat, strTabSize: nat, symTabSize: nat)
    requires TablesKnown(sections, later, arena, count, strTabSize, symTabSize,
                         SizesOf(strTabSize, symTabSize, n, first))
    ensures TablesRoomy(sections, later, n, first)
  {
    SizesStay(strTabSize, symTabSize, later, arena, n, first);
  }

  lemma TablesStay(ready: seq<OutputSection>, k: nat, symTabSize: nat, strTabSize: nat)
    requires TablesAt(ready, k, symTabSize, strTabSize)
    ensures TablesAt(Layout(ready).0, k, symTabSize, strTabSize) && |Layout(ready).0| == |ready|
  {
    LayoutKeeps(ready);
  }

  lemma Completes(later: seq<Symbol>, arena: seq<Symbol>, sections: seq<OutputSection>, filled: seq<OutputSection>,
                  ready: seq<OutputSection>, symbols: seq<Ptr>, freed: set<Ptr>, log: seq<(nat, Rela)>,
                  data: seq<DataSection>, es: seq<Expect>, n: nat, base: nat, libs: seq<Library>,
                  indexed: seq<OutputSection>)
    requires Linked(sections) && Carries(sections, data) && Filled(filled, sections, log) && AllGoTo(sections, es, log)
    requires SameContents(ready, filled) && |ready| == |sections| + 5
    requires ImportsBuilt(arena, sections, n, base, libs) && SameMeaning(later, arena) && Owned(arena, symbols, freed)
    requires StubsTyped(arena, AllImports(libs)) && IndexedAs(indexed, ready)
    ensures |log| == |es| && Owned(later, symbols, freed) && StubsTyped(later, AllImports(libs))
    ensures AllLanded(Layout(ready).0, data, es, log) && ImportsInFront(later, Layout(ready).0, n, base, libs)
    ensures DataPlaced(Layout(ready).0, data)
    ensures AllEmitted(arena, symbols, log, es) ==> AllEmitted(later, symbols, log, es)
    ensures |Layout(ready).0| == |ready| && IndexedAs(indexed, Layout(ready).0)
  {
    SectionsComplete(sections, filled, ready, data, es, log);
    ImportsComplete(later, arena, sections, Layout(ready).0, symbols, log, es, n, base, libs);
    LayoutKeeps(ready);
    IndexedStay(indexed, ready, Layout(ready).0);
    StubsStayTyped(later, arena, AllImports(libs));
  }

  lemma StubsStayTyped(later: seq<Symbol>, arena: seq<Symbol>, imports: seq<RplImport>)
    requires StubsTyped(arena, imports) && SameMeaning(later, arena)
    ensures StubsTyped(later, imports)
  {
    forall k | 0 <= k < |imports|
      ensures imports[k].stub < |later| && IsImportSymbol(later[imports[k].stub])
    {
      var p := imports[k].stub;
      assert later[p] == arena[p].(size := later[p].size, outNamePos := later[p].outNamePos);
    }
  }

  lemma IndexedStay(indexed: seq<OutputSection>, ready: seq<OutputSection>, last: seq<OutputSection>)
    requires IndexedAs(indexed, ready) && SameSections(last, ready)
    ensures IndexedAs(indexed, last)
  {
    forall i | 0 <= i < |indexed| - 3
      ensures SameRange(indexed[i], last[i]) && SizeIsFinal(last[i])
    {
      assert SameRange(indexed[i], ready[i]) && SizeIsFinal(ready[i]);
    }
  }

  lemma ImportsComplete(later: seq<Symbol>, arena: seq<Symbol>, sections: seq<OutputSection>, last: seq<OutputSection>,
                        symbols: seq<Ptr>, log: seq<(nat, Rela)>, es: seq<Expect>, n: nat, base: nat,
                        libs: seq<Library>)
    requires ImportsBuilt(arena, sections, n, base, libs) && SameMeaning(later, arena) && LabelsStay(last, sections)
    requires |last| == |sections| + 5
    ensures ImportsInFront(later, last, n, base, libs)
    ensures AllEmitted(arena, symbols, log, es) ==> AllEmitted(later, symbols, log, es)
  {
    ImportsStay(later, arena, sections, last, n, base, libs);
    CompletionKeeps(later, arena, symbols, log, es, base, libs);
  }

  lemma SectionsComplete(sections: seq<OutputSection>, filled: seq<OutputSection>, ready: seq<OutputSection>,
                         data: seq<DataSection>, es: seq<Expect>, log: seq<(nat, Rela)>)
    requires Linked(sections) && Carries(sections, data) && Filled(filled, sections, log) && SameContents(ready, filled)
    requires AllGoTo(sections, es, log)
    ensures AllLanded(Layout(ready).0, data, es, log) && LabelsStay(Layout(ready).0, sections)
    ensures DataPlaced(Layout(ready).0, data)
  {
    EntriesLand(sections, filled, ready, data, es, log);
    LayoutKeeps(ready);
    CompletionKeepsLabels(sections, filled, ready, Layout(ready).0, es, log);
    DataStays(Layout(ready).0, sections, data);
  }

  lemma CompletionKeeps(later: seq<Symbol>, arena: seq<Symbol>, symbols: seq<Ptr>, log: seq<(nat, Rela)>,
                        es: seq<Expect>, base: nat, libs: seq<Library>)
    requires SameMeaning(later, arena) && SlotsSet(arena, base, libs, |libs|)
    ensures SlotsSet(later, base, libs, |libs|)
    ensures AllEmitted(arena, symbols, log, es) ==> AllEmitted(later, symbols, log, es)
  {
    if AllEmitted(arena, symbols, log, es) {
      MeaningStays(later, arena, symbols, log, es);
    }
    SlotsStaySet(later, arena, base, libs);
  }

  lemma SlotsStaySet(later: seq<Symbol>, arena: seq<Symbol>, base: nat, libs: seq<Library>)
    requires SameMeaning(later, arena) && SlotsSet(arena, base, libs, |libs|)
    ensures SlotsSet(later, base, libs, |libs|)
  {
    forall l | 0 <= l < |libs|
      ensures SlotsOf(later, LoadAddress(base, libs[..l]), libs[l].imports, |libs[l].imports|)
    {
      assert SlotsOf(arena, LoadAddress(base, libs[..l]), libs[l].imports, |libs[l].imports|);
    }
  }

  // ---------- Which symbols no section is found for ----------

  /** Addresses are 32-bit words. */
  ghost predicate WordsFit(table: seq<InSymbol>, data: seq<DataSection>) {
    && (forall s :: s in KeptSymbols(table) ==> s.value < TWO_TO_32)
    && forall d :: d in data ==> d.address < TWO_TO_32
  }

  /** The symbols as they were read, and as they are once every relocation has its entry. */
  ghost predicate Placing(before: seq<Symbol>, listed: seq<Ptr>, imports: seq<RplImport>, table: seq<InSymbol>,
                          arena: seq<Symbol>, symbols: seq<Ptr>, stubs: nat, sections: seq<OutputSection>)
  {
    && SymbolsRead(before, listed, imports) && TableStands(before, imports, table)
    && stubs == |before| - |imports| && Standing(arena, symbols, before, stubs, sections)
  }

  /** The addresses of sections, whose symbols describe them. */
  ghost predicate Laid(arena: seq<Symbol>, n: nat, sections: seq<OutputSection>, data: seq<DataSection>,
                       libs: seq<Library>, base: nat)
  {
    Carries(sections, data) && RelasBetween(sections, data, |libs|) && ImportsBuilt(arena, sections, n, base, libs)
  }

  lemma SectionBelow(arena: seq<Symbol>, n: nat, sections: seq<OutputSection>, data: seq<DataSection>,
                     libs: seq<Library>, base: nat, j: nat)
    requires Laid(arena, n, sections, data, libs, base) && 1 <= j < |sections|
    requires forall d :: 0 <= d < |data| ==> data[d].address < UNSET
    ensures sections[j].addr < UNSET
  {
    var first := |sections| - |libs|;
    if j <= |data| {
      assert sections[1 + (j - 1)].addr == data[j - 1].address;
    } else if j >= first {
      BaseFits(base, arena, sections, n, first);
      ImportSectionBelow(sections, first, base, libs, j - first);
    }
  }

  lemma BaseFits(base: nat, arena: seq<Symbol>, sections: seq<OutputSection>, n: nat, first: nat)
    requires BaseIs(base, arena, sections, n, first)
    ensures base < TWO_TO_32
  {
  }

  lemma ImportSectionBelow(sections: seq<OutputSection>, first: nat, base: nat, libs: seq<Library>, l: nat)
    requires SectionsAdded(sections, first, base, libs, |libs|) && l < |libs|
    requires base % 4 == 0 && base < TWO_TO_32
    ensures sections[first + l].addr < UNSET
  {
    assert IsImportSection(sections[first + l], LoadAddress(base, libs[..l]), libs[l]);
    LoadAligned(base, libs[..l]);
  }

  /** A symbol that was read is at the greatest address only if the table says so. */
  lemma ReadBelow(before: seq<Symbol>, listed: seq<Ptr>, imports: seq<RplImport>, table: seq<InSymbol>,
                  arena: seq<Symbol>, symbols: seq<Ptr>, stubs: nat, sections: seq<OutputSection>, p: Ptr)
    requires Placing(before, listed, imports, table, arena, symbols, stubs, sections)
    requires !SymbolStranded(imports, table) && forall s :: s in KeptSymbols(table) ==> s.value < TWO_TO_32
    requires p < |before| && p in symbols
    ensures arena[p].address < UNSET
  {
    var kept := KeptSymbols(table);
    if p < 4 {
      assert arena[p] == before[p] == before[listed[p]];
    } else if p < stubs {
      var j := p - 4;
      assert EntryStands(before, imports, kept, j) && kept[j] in kept;
    } else {
      assert IsStub(before[p]);
    }
  }

  lemma AllBelowUnless(before: seq<Symbol>, listed: seq<Ptr>, imports: seq<RplImport>, table: seq<InSymbol>,
                       arena: seq<Symbol>, symbols: seq<Ptr>, stubs: nat, sections: seq<OutputSection>,
                       data: seq<DataSection>, libs: seq<Library>, base: nat)
    requires Placing(before, listed, imports, table, arena, symbols, stubs, sections) && Allocated(arena, symbols)
    requires Laid(arena, |before|, sections, data, libs, base) && WordsFit(table, data)
    requires !Stranded(imports, table, data)
    ensures AllBelow(arena, symbols)
  {
    assert forall d :: 0 <= d < |data| ==> data[d] in data;
    forall k | 0 <= k < |symbols|
      ensures arena[symbols[k]].address < UNSET
    {
      var p := symbols[k];
      if p < |before| {
        ReadBelow(before, listed, imports, table, arena, symbols, stubs, sections, p);
      } else {
        var j := p - |before| + 1;
        assert Describes(arena[|before| + j - 1], sections[j]);
        SectionBelow(arena, |before|, sections, data, libs, base, j);
      }
    }
  }

  lemma NotBelow(arena: seq<Symbol>, symbols: seq<Ptr>, p: Ptr)
    requires Allocated(arena, symbols) && p in symbols && arena[p].address == UNSET
    ensures !AllBelow(arena, symbols)
  {
    var k :| 0 <= k < |symbols| && symbols[k] == p;
  }

  lemma StrandedShows(before: seq<Symbol>, listed: seq<Ptr>, imports: seq<RplImport>, table: seq<InSymbol>,
                      arena: seq<Symbol>, symbols: seq<Ptr>, stubs: nat, sections: seq<OutputSection>,
                      data: seq<DataSection>)
    requires Placing(before, listed, imports, table, arena, symbols, stubs, sections) && Allocated(arena, symbols)
    requires Carries(sections, data) && Stranded(imports, table, data)
    ensures !AllBelow(arena, symbols)
  {
    var kept := KeptSymbols(table);
    if SymbolStranded(imports, table) {
      var j :| 0 <= j < |kept| && kept[j].value == UNSET && !IsPruned(imports, kept, j);
      assert EntryStands(before, imports, kept, j) && arena[4 + j] == before[4 + j];
      NotBelow(arena, symbols, 4 + j);
    } else {
      var d :| 0 <= d < |data| && data[d].address == UNSET;
      var j := 1 + d;
      assert Describes(arena[|before| + j - 1], sections[j]) && sections[j].addr == data[d].address;
      NotBelow(arena, symbols, |before| + j - 1);
    }
  }

  /** A section is found for every symbol exactly when the input strands none. */
  lemma StrandedInInput(before: seq<Symbol>, listed: seq<Ptr>, imports: seq<RplImport>, table: seq<InSymbol>,
                        arena: seq<Symbol>, symbols: seq<Ptr>, stubs: nat, sections: seq<OutputSection>,
                        data: seq<DataSection>, libs: seq<Library>, base: nat)
    requires Placing(before, listed, imports, table, arena, symbols, stubs, sections) && Allocated(arena, symbols)
    requires Laid(arena, |before|, sections, data, libs, base) && WordsFit(table, data)
    ensures AllBelow(arena, symbols) <==> !Stranded(imports, table, data)
  {
    if Stranded(imports, table, data) {
      StrandedShows(before, listed, imports, table, arena, symbols, stubs, sections, data);
    } else {
      AllBelowUnless(before, listed, imports, table, arena, symbols, stubs, sections, data, libs, base);
    }
  }

  lemma {:induction false} KeptAreKept(table: seq<InSymbol>)
    ensures forall s :: s in KeptSymbols(table) ==> KeepsSymbol(s)
  {
    if table != [] {
      KeptAreKept(table[..|table| - 1]);
    }
  }

  /** Only section symbols at address zero go by their names, and their sections are there. */
  lemma ZeroNamesThere(before: seq<Symbol>, listed: seq<Ptr>, imports: seq<RplImport>, table: seq<InSymbol>,
                       arena: seq<Symbol>, symbols: seq<Ptr>, stubs: nat, sections: seq<OutputSection>,
                       filled: seq<OutputSection>, log: seq<(nat, Rela)>)
    requires Placing(before, listed, imports, table, arena, symbols, stubs, sections) && Allocated(arena, symbols)
    requires Filled(filled, sections, log)
    ensures Placeable(arena, symbols, filled)
  {
    KeptAreKept(table);
    forall k | 0 <= k < |symbols| && GoesByName(arena[symbols[k]])
      ensures exists i :: 0 <= i < |filled| && filled[i].name == arena[symbols[k]].name
    {
      var p := symbols[k];
      if p < |before| {
        ReadByAddress(before, listed, imports, table, arena, symbols, stubs, sections, p);
        assert false;
      } else {
        var j := p - |before| + 1;
        assert Describes(arena[|before| + j - 1], sections[j]);
        assert filled[j] == WithEntries(sections[j], EntriesOf(log, j));
      }
    }
  }

  lemma ReadByAddress(before: seq<Symbol>, listed: seq<Ptr>, imports: seq<RplImport>, table: seq<InSymbol>,
                      arena: seq<Symbol>, symbols: seq<Ptr>, stubs: nat, sections: seq<OutputSection>, p: Ptr)
    requires Placing(before, listed, imports, table, arena, symbols, stubs, sections) && p < |before|
    requires forall s :: s in KeptSymbols(table) ==> KeepsSymbol(s)
    ensures !GoesByName(arena[p])
  {
    var kept := KeptSymbols(table);
    if p < 4 {
      assert arena[p] == before[p] == before[listed[p]];
    } else if p < stubs {
      var j := p - 4;
      assert EntryStands(before, imports, kept, j) && kept[j] in kept;
    } else {
      assert IsStub(before[p]);
    }
  }

  lemma StubsAreTyped(before: seq<Symbol>, listed: seq<Ptr>, imports: seq<RplImport>, arena: seq<Symbol>, stubs: nat)
    requires SymbolsRead(before, listed, imports) && stubs == |before| - |imports|
    requires OnlySlots(arena, before, stubs, |before|)
    ensures StubsTyped(arena, imports)
  {
    forall k | 0 <= k < |imports|
      ensures imports[k].stub < |arena| && IsImportSymbol(arena[imports[k].stub])
    {
      assert IsStub(before[imports[k].stub]);
    }
  }

  // ---------- Writing ----------

  /** What completing an object needs to know about its symbols. */
  lemma ReadyToComplete(before: seq<Symbol>, listed: seq<Ptr>, imports: seq<RplImport>, table: seq<InSymbol>,
                        arena: seq<Symbol>, symbols: seq<Ptr>, stubs: nat, sections: seq<OutputSection>,
                        filled: seq<OutputSection>, log: seq<(nat, Rela)>, data: seq<DataSection>,
                        libs: seq<Library>, base: nat)
    requires Placing(before, listed, imports, table, arena, symbols, stubs, sections) && Allocated(arena, symbols)
    requires Filled(filled, sections, log) && Laid(arena, |before|, sections, data, libs, base) && WordsFit(table, data)
    ensures Placeable(arena, symbols, filled) && StubsTyped(arena, imports)
    ensures AllBelow(arena, symbols) <==> !Stranded(imports, table, data)
  {
    ZeroNamesThere(before, listed, imports, table, arena, symbols, stubs, sections, filled, log);
    StubsAreTyped(before, listed, imports, arena, stubs);
    StrandedInInput(before, listed, imports, table, arena, symbols, stubs, sections, data, libs, base);
  }

  /** How writing ends, for an object that has been read. */
  ghost function WritingEnds(imports: seq<RplImport>, table: seq<InSymbol>, data: seq<DataSection>,
                             es: seq<Expect>): Outcome
  {
    if !AllTargetsReach(data, es) then Failed
    else if !NoneAstray(es) then BadPointer
    else if Stranded(imports, table, data) then Failed
    else Done
  }

  /** The last stages of writing. */
  method WriteRest(w: RplWriter, ghost sections: seq<OutputSection>, ghost before: seq<Symbol>, ghost listed: seq<Ptr>,
                   ghost imports: seq<RplImport>, ghost table: seq<InSymbol>, ghost stubs: nat,
                   ghost data: seq<DataSection>, ghost es: seq<Expect>, ghost base: nat)
    returns (ok: bool, strTab: string, shStrTab: string, shndx: seq<nat>,
             ghost named: seq<OutputSection>, ghost ready: seq<OutputSection>, ghost indexed: seq<OutputSection>)
    requires Emitted(w, sections, |before|, data, es, base) && imports == AllImports(w.file.libs)
    requires Placing(before, listed, imports, table, w.file.arena, w.file.symbols, stubs, sections)
    requires WordsFit(table, data)
    modifies w`sections, w.file`arena
    ensures ok <==> !Stranded(imports, table, data)
    ensures ok ==> RelocationsConverted(w, es, data) && Finished(w, strTab, shStrTab, named, ready)
    ensures ok ==> ImportsPlaced(w, |before|, base) && SymbolsPlaced(w, indexed, shndx)
    ensures ok ==> SameMeaning(w.file.arena, old(w.file.arena)) && |w.sections| == |sections| + 5
    ensures ok ==> TablesAt(w.sections, |sections|, old(w.predictSymTabSize), old(w.predictStrTabSize))
    ensures ok ==> EntriesStay(w.file.arena, w.file.symbols, before, stubs)
  {
    ghost var arena := w.file.arena;
    ReadyToComplete(before, listed, imports, table, w.file.arena, w.file.symbols, stubs, sections, w.sections, w.log,
                    data, w.file.libs, base);
    ok, strTab, shStrTab, shndx, named, ready, indexed := CompleteFile(w, sections, |before|, data, es, base);
    if ok {
      StandingStays(w.file.arena, arena, w.file.symbols, before, stubs, sections);
    }
  }

  /** Where the tables are, once the symbols that their sizes were predicted from are known. */
  ghost predicate TablesKnown(sections: seq<OutputSection>, later: seq<Symbol>, arena: seq<Symbol>, count: nat,
                              strTabSize: nat, symTabSize: nat, p: seq<Symbol> -> bool)
  {
    && p(arena) && SameMeaning(later, arena) && |sections| == count + 5
    && TablesAt(sections, count, symTabSize, strTabSize)
  }

  /** Writes an object that has been read. */
  method WriteFile(file: ElfFile, data: seq<DataSection>, ghost es: seq<Expect>, ghost table: seq<InSymbol>,
                   ghost imports: seq<RplImport>, ghost stubs: nat)
    returns (outcome: Outcome, w: RplWriter, base: nat, strTab: string, shStrTab: string, shndx: seq<nat>,
             ghost named: seq<OutputSection>, ghost ready: seq<OutputSection>, ghost indexed: seq<OutputSection>)
    requires imports == AllImports(file.libs) && SymbolsRead(file.arena, file.symbols, imports) && file.freed == {}
    requires TableStands(file.arena, imports, table) && WordsFit(table, data) && stubs == |file.arena| - |imports|
    requires AllStandFor(file.arena, stubs, file.relocations, es) && AllFit(es)
    modifies file`arena, file`symbols, file`freed
    ensures fresh(w) && w.file == file && outcome == WritingEnds(imports, table, data, es)
    ensures outcome.BadPointer? ==> FirstAstray(|w.log|, es)
    ensures outcome.Done? ==> RelocationsConverted(w, es, data) && Finished(w, strTab, shStrTab, named, ready)
    ensures outcome.Done? ==> ImportsPlaced(w, |old(file.arena)|, base) && SymbolsPlaced(w, indexed, shndx)
    ensures outcome.Done? ==> TablesPlaced(w.sections, file.arena, |old(file.arena)|, |old(file.libs)|)
    ensures outcome.Done? ==> EntriesStay(file.arena, file.symbols, old(file.arena), stubs)
  {
    ghost var n, emitted, count, first, strTabSize, symTabSize := |file.arena|, [], 0, 0, 0, 0;
    outcome, w, base, strTab, shStrTab, shndx, named, ready, indexed, emitted, count, first, strTabSize, symTabSize :=
      WriteParts(file, data, es, table, imports, stubs);
    if outcome.Done? {
      TablesArePlaced(w.sections, w.file.arena, emitted, n, count, first, strTabSize, symTabSize);
    }
  }

  lemma StandingStays(later: seq<Symbol>, arena: seq<Symbol>, symbols: seq<Ptr>, before: seq<Symbol>, stubs: nat,
                      sections: seq<OutputSection>)
    requires Standing(arena, symbols, before, stubs, sections) && SameMeaning(later, arena) && stubs <= |before|
    ensures EntriesStay(later, symbols, before, stubs)
  {
    forall p: Ptr | p < stubs
      ensures EntryStays(later[p], before[p]) && (p in symbols <==> !Prunable(before[p]))
    {
      assert arena[p] == before[p];
    }
  }

  method WriteParts(file: ElfFile, data: seq<DataSection>, ghost es: seq<Expect>, ghost table: seq<InSymbol>,
                    ghost imports: seq<RplImport>, ghost stubs: nat)
    returns (outcome: Outcome, w: RplWriter, base: nat, strTab: string, shStrTab: string, shndx: seq<nat>,
             ghost named: seq<OutputSection>, ghost ready: seq<OutputSection>, ghost indexed: seq<OutputSection>,
             ghost emitted: seq<Symbol>, ghost count: nat, ghost first: nat, ghost strTabSize: nat,
             ghost symTabSize: nat)
    requires imports == AllImports(file.libs) && SymbolsRead(file.arena, file.symbols, imports) && file.freed == {}
    requires TableStands(file.arena, imports, table) && WordsFit(table, data) && stubs == |file.arena| - |imports|
    requires AllStandFor(file.arena, stubs, file.relocations, es) && AllFit(es)
    modifies file`arena, file`symbols, file`freed
    ensures fresh(w) && w.file == file && outcome == WritingEnds(imports, table, data, es)
    ensures outcome.BadPointer? ==> FirstAstray(|w.log|, es)
    ensures outcome.Done? ==> RelocationsConverted(w, es, data) && Finished(w, strTab, shStrTab, named, ready)
    ensures outcome.Done? ==> ImportsPlaced(w, |old(file.arena)|, base) && SymbolsPlaced(w, indexed, shndx)
    ensures outcome.Done? ==> first > 0 && first + |old(file.libs)| == count
    ensures outcome.Done? ==> EntriesStay(file.arena, file.symbols, old(file.arena), stubs)
    ensures outcome.Done? ==>
              TablesKnown(w.sections, file.arena, emitted, count, strTabSize, symTabSize,
                          SizesOf(strTabSize, symTabSize, |old(file.arena)|, first))
  {
    strTab, shStrTab, shndx, named, ready, indexed := "", "", [], [], [], [];
    TargetsMatch(file.arena, stubs, file.relocations, es, data);
    ghost var before, listed, libs, sections := file.arena, file.symbols, file.libs, [];
    outcome, w, base, sections := EmitFile(file, data, es, stubs);
    emitted, count, first, strTabSize, symTabSize := file.arena, |sections|, 0, 0, 0;
    if outcome.Done? {
      first, strTabSize, symTabSize := count - |libs|, w.predictStrTabSize, w.predictSymTabSize;
      ghost var p := SizesOf(strTabSize, symTabSize, |before|, first);
      PredictedBy(w, |before|, count, first, p);
      var ok;
      ok, strTab, shStrTab, shndx, named, ready, indexed :=
        WriteRest(w, sections, before, listed, imports, table, stubs, data, es, base);
      outcome := if ok then Done else Failed;
    }
  }

  // ---------- Which pointers go astray ----------

  lemma OneAstray(e: Expect)
    ensures NoneAstray([e]) <==> !Astray(e)
  {
    assert [e][0] == e;
  }

  /** The meaning of an addend goes astray exactly when it leads to a label. */
  lemma AstrayMeaning(imports: seq<RplImport>, table: seq<InSymbol>, addend: nat)
    ensures var m := Classify(imports, KnownAddresses(table), addend);
            LeadsToLabel(imports, table, addend) <==> m.Some? && m.value.Label?
    ensures var m := Classify(imports, KnownAddresses(table), addend);
            m.Some? ==> !m.value.Nothing?
  {
  }

  lemma {:induction false} StaticAstray(imports: seq<RplImport>, table: seq<InSymbol>, relas: seq<InRela>)
    ensures NoneAstray(Expected(imports, KnownAddresses(table), relas)) <==> StaticHolds(imports, table, relas)
  {
    if relas != [] {
      var known, init, last := KnownAddresses(table), relas[..|relas| - 1], relas[|relas| - 1];
      StaticAstray(imports, table, init);
      AstrayMeaning(imports, table, last.addend);
      StaticHoldsLast(imports, table, init, last);
      assert relas == init + [last];
      var before, m := Expected(imports, known, init), Classify(imports, known, last.addend);
      if m.Some? {
        var e := Expect(last.offset, last.info % 256, m.value);
        assert Expected(imports, known, relas) == before + [e];
        AstrayAppend(before, [e]);
        OneAstray(e);
      } else {
        assert Expected(imports, known, relas) == before;
      }
    }
  }

  lemma {:induction false} DynAstray(imports: seq<RplImport>, table: seq<InSymbol>, relas: seq<DynRela>)
    ensures NoneAstray(ExpectedDyn(imports, KnownAddresses(table), relas)) <==> DynHolds(imports, table, relas)
  {
    if relas != [] {
      var known, init, last := KnownAddresses(table), relas[..|relas| - 1], relas[|relas| - 1];
      DynAstray(imports, table, init);
      AstrayMeaning(imports, table, last.addend);
      DynHoldsLast(imports, table, init, last);
      assert relas == init + [last];
      var before, m := ExpectedDyn(imports, known, init), ClassifyDyn(imports, known, last);
      if m.Some? && KeepsDyn(last) {
        var e := Expect(last.offset, R_PPC_ADDR32, m.value);
        assert ExpectedDyn(imports, known, relas) == before + [e];
        AstrayAppend(before, [e]);
        OneAstray(e);
      } else {
        assert ExpectedDyn(imports, known, relas) == before;
      }
    }
  }

  lemma StaticHoldsLast(imports: seq<RplImport>, table: seq<InSymbol>, init: seq<InRela>, last: InRela)
    ensures StaticHolds(imports, table, init + [last]) <==>
            StaticHolds(imports, table, init) && !LeadsToLabel(imports, table, last.addend)
  {
    var relas := init + [last];
    assert relas[|init|] == last && forall i :: 0 <= i < |init| ==> relas[i] == init[i];
  }

  lemma DynHoldsLast(imports: seq<RplImport>, table: seq<InSymbol>, init: seq<DynRela>, last: DynRela)
    ensures DynHolds(imports, table, init + [last]) <==>
            DynHolds(imports, table, init) &&
            (KeepsDyn(last) ==> last.index == 0 && !LeadsToLabel(imports, table, last.addend))
  {
    var relas := init + [last];
    assert relas[|init|] == last && forall i :: 0 <= i < |init| ==> relas[i] == init[i];
  }

  lemma AstrayAppend(a: seq<Expect>, b: seq<Expect>)
    ensures NoneAstray(a + b) <==> NoneAstray(a) && NoneAstray(b)
  {
    var both := a + b;
    assert forall k :: 0 <= k < |a| ==> both[k] == a[k];
    assert forall k :: 0 <= k < |b| ==> both[|a| + k] == b[k];
  }

  /**
   * Which inputs send a pointer astray: those where a static relocation or a kept loader relocation leads to a
   * label, or a kept loader relocation names a symbol.
   */
  lemma AstrayInInput(imports: seq<RplImport>, input: Input)
    ensures NoneAstray(AllExpected(imports, input)) <==> PointersHold(imports, input)
  {
    StaticAstray(imports, input.Table(), input.relas);
    DynAstray(imports, input.Table(), input.dyn);
    var known := KnownAddresses(input.Table());
    AstrayAppend(Expected(imports, known, input.relas), ExpectedDyn(imports, known, input.dyn));
  }

  // ---------- The converter ----------

  lemma InputBecame(libs: seq<Library>, input: Input, arena: seq<Symbol>, symbols: seq<Ptr>,
                    sections: seq<OutputSection>, n: nat, base: nat, log: seq<(nat, Rela)>, es: seq<Expect>)
    requires LibsFrom(libs, input.defs, input.word) && |libs| == |input.defs|
    requires es == AllExpected(AllImports(libs), input) && ReadingEnds(AllImports(libs), input).Done? && NoneAstray(es)
    requires AllTyped(log, es) && (|symbols| <= 0x100_0000 ==> AllEmitted(arena, symbols, log, es))
    requires ImportsInFront(arena, sections, n, base, libs)
    ensures AllBecame(input, arena, symbols, sections, log)
  {
    EntriesBecame(libs, input, arena, symbols, sections, n, base, log, es);
  }

  /**
   * Converts an object: reading, then writing, in the program's order. If it goes through, every relocation the input
   * asks for is in the output and means there what it meant in the input; names, file offsets, import sections and
   * slots are sound; and every symbol is recorded in a section that contains it.
   */
  method ConvertObject(input: Input)
    returns (outcome: Outcome, file: ElfFile, w: RplWriter?, base: nat, strTab: string, shStrTab: string,
             shndx: seq<nat>, ghost named: seq<OutputSection>, ghost ready: seq<OutputSection>,
             ghost indexed: seq<OutputSection>)
    requires WellFormed(input)
    ensures outcome == EndsAs(input) && outcome == ConversionEnds(AllImports(file.libs), input)
    ensures SymTabsNamed(input.symTabs) && StubsLead(input) ==>
              LibsFrom(file.libs, input.defs, input.word) && |file.libs| == |input.defs|
    ensures ReadingEnds(AllImports(file.libs), input).Done? ==> w != null && w.file == file
    ensures ReadingEnds(AllImports(file.libs), input).Done? && outcome.BadPointer? ==>
              FirstAstray(|w.log|, AllExpected(AllImports(file.libs), input))
    ensures outcome.Done? ==> RelocationsConverted(w, AllExpected(AllImports(file.libs), input), input.data)
    ensures outcome.Done? ==> Finished(w, strTab, shStrTab, named, ready) && SymbolsPlaced(w, indexed, shndx)
    ensures outcome.Done? ==> ImportsPlaced(w, SymbolCount(input.Table(), AllImports(file.libs)), base)
    ensures outcome.Done? ==>
              TablesPlaced(w.sections, file.arena, SymbolCount(input.Table(), AllImports(file.libs)), |input.defs|)
    ensures outcome.Done? ==> AllBecame(input, file.arena, file.symbols, w.sections, w.log)
    ensures outcome.Done? ==> AllKept(input, file.arena, file.symbols)
  {
    w, base, strTab, shStrTab, shndx, named, ready, indexed := null, 0, "", "", [], [], [], [];
    outcome, file := ReadFile(input);
    EndsByInput(file.libs, input);
    if outcome.Done? {
      ghost var imports, stubs := AllImports(file.libs), |file.arena| - |AllImports(file.libs)|;
      ghost var es, before := AllExpected(imports, input), file.arena;
      ExpectedFits(imports, input);
      AstrayInInput(imports, input);
      outcome, w, base, strTab, shStrTab, shndx, named, ready, indexed :=
        WriteFile(file, input.data, es, input.Table(), imports, stubs);
      if outcome.Done? {
        InputBecame(file.libs, input, file.arena, file.symbols, w.sections, SymbolCount(input.Table(), imports), base,
                    w.log, es);
        EntriesKept(file.libs, input, before, file.arena, file.symbols);
      }
    }
  }
}
