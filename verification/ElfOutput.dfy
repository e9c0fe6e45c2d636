/** Writing: sections, import slots, pruning and conversion in the program's order. */
module ElfOutput {
  import opened Words
  import opened ElfSymbols
  import opened ElfRead
  import opened ElfRelocs
  import opened ElfSections
  import opened ElfRelaSections
  import opened ElfImportSlots
  import opened ElfConvert
  import opened ElfEmit
  import opened ElfStrings
  import opened Wrappers

  // ---------- Where the import sections start ----------

  /** The characters of all the names. */
  function Lengths(names: seq<string>): nat {
    if names == [] then 0 else Lengths(names[..|names| - 1]) + |names[|names| - 1]|
  }

  /** The least multiple of 16 that is not below `x`. */
  function UpTo16(x: nat): nat {
    (x + 15) / 16 * 16
  }

  lemma RoundsUp(x: nat)
    ensures AlignUp(x, 16) == UpTo16(x)
  {
  }

  /** The predicted size of a string table: every name with a NUL behind it, behind a NUL. */
  function StringSize(names: seq<string>): nat {
    UpTo16(1 + |names| + Lengths(names))
  }

  /** The predicted size of the symbol table, one byte more than that of its entries. */
  function EntrySize(count: nat): nat {
    UpTo16(1 + 16 * count)
  }

  /** The load address predicted for tables of these names. */
  predicate LoadPredicted(base: nat, symbolNames: seq<string>, sectionNames: seq<string>) {
    base == (0xC000_0000 + UpTo16(1 + |symbolNames| + Lengths(symbolNames)) + UpTo16(1 + 16 * |symbolNames|)
             + UpTo16(1 + |sectionNames| + Lengths(sectionNames))) % 0x1_0000_0000
  }

  lemma PastIsAligned(a: nat, b: nat, c: nat)
    requires a % 16 == 0 && b % 16 == 0 && c % 16 == 0
    ensures Wrap32(0xC000_0000 + a + b + c) % 4 == 0
  {
    SumIsAligned(a, b, c);
    SixteenthIsFourth(0xC000_0000 + a + b + c);
    WrapsToFourth(0xC000_0000 + a + b + c);
  }

  lemma SumIsAligned(a: nat, b: nat, c: nat)
    requires a % 16 == 0 && b % 16 == 0 && c % 16 == 0
    ensures (0xC000_0000 + a + b + c) % 16 == 0
  {
    assert (0xC000_0000 + a) % 16 == 0;
    assert (0xC000_0000 + a + b) % 16 == 0;
  }

  lemma SixteenthIsFourth(x: nat)
    requires x % 16 == 0
    ensures x % 4 == 0
  {
    assert x == 4 * (4 * (x / 16));
    FourTimes(4 * (x / 16));
  }

  /** The sizes predicted for the symbol names and for the symbols. */
  method SymbolSizes(file: ElfFile) returns (strings: nat, entries: nat)
    requires Allocated(file.arena, file.symbols)
    ensures strings == StringSize(SymbolNames(file.arena, file.symbols)) && entries == EntrySize(|file.symbols|)
    ensures strings % 16 == 0 && entries % 16 == 0
  {
    strings, entries := 1, 1;
    ghost var names := SymbolNames(file.arena, file.symbols);
    for i := 0 to |file.symbols|
      invariant strings == 1 + i + Lengths(names[..i]) && entries == 1 + 16 * i
    {
      assert names[..i + 1][..i] == names[..i];
      strings := strings + |file.arena[file.symbols[i]].name| + 1;
      entries := entries + 16;
    }
    assert names[..|names|] == names;
    RoundsUp(strings);
    RoundsUp(entries);
    strings, entries := AlignUp(strings, 16), AlignUp(entries, 16);
  }

  method SectionSizes(sections: seq<OutputSection>) returns (strings: nat)
    ensures strings == StringSize(SectionNames(sections)) && strings % 16 == 0
  {
    strings := 1;
    ghost var names := SectionNames(sections);
    for i := 0 to |sections|
      invariant strings == 1 + i + Lengths(names[..i])
    {
      assert names[..i + 1][..i] == names[..i];
      strings := strings + |sections[i].name| + 1;
    }
    assert names[..|names|] == names;
    RoundsUp(strings);
    strings := AlignUp(strings, 16);
  }

  method PredictLoadAddress(w: RplWriter) returns (load: nat)
    requires Allocated(w.file.arena, w.file.symbols)
    modifies w`predictStrTabSize, w`predictSymTabSize
    ensures LoadPredicted(load, SymbolNames(w.file.arena, w.file.symbols), SectionNames(w.sections)) && load % 4 == 0
    ensures w.predictStrTabSize == StringSize(SymbolNames(w.file.arena, w.file.symbols))
    ensures w.predictSymTabSize == EntrySize(|w.file.symbols|)
  {
    w.predictStrTabSize, w.predictSymTabSize := SymbolSizes(w.file);
    var shStrTabSize := SectionSizes(w.sections);
    load := Wrap32(0xC000_0000 + (w.predictStrTabSize + w.predictSymTabSize + shStrTabSize));
    PastIsAligned(w.predictStrTabSize, w.predictSymTabSize, shStrTabSize);
  }

  // ---------- Sections ----------

  /**
   * The load address was predicted from the symbols and sections in front of import section `first`; `n` symbols
   * had been read.
   */
  ghost predicate BaseIs(base: nat, arena: seq<Symbol>, sections: seq<OutputSection>, n: nat, first: nat) {
    && n >= 4 && 1 <= first <= |sections| && Allocated(arena, Order(n, first - 1))
    && LoadPredicted(base, SymbolNames(arena, Order(n, first - 1)), SectionNames(sections[..first]))
  }

  /** The sizes of the two symbol tables were predicted from the same symbols. */
  ghost predicate SizesPredicted(strTabSize: nat, symTabSize: nat, arena: seq<Symbol>, n: nat, first: nat) {
    && n >= 4 && 1 <= first && Allocated(arena, Order(n, first - 1))
    && strTabSize == StringSize(SymbolNames(arena, Order(n, first - 1))) && symTabSize == EntrySize(n + first - 1)
  }

  lemma SizesStay(strTabSize: nat, symTabSize: nat, later: seq<Symbol>, arena: seq<Symbol>, n: nat, first: nat)
    requires SizesPredicted(strTabSize, symTabSize, arena, n, first)
    requires |arena| <= |later| && forall p :: 0 <= p < |arena| ==> later[p].name == arena[p].name
    ensures SizesPredicted(strTabSize, symTabSize, later, n, first)
  {
    assert SymbolNames(later, Order(n, first - 1)) == SymbolNames(arena, Order(n, first - 1));
  }

  /** The load address depends on names only. */
  lemma BaseStays(base: nat, later: seq<Symbol>, arena: seq<Symbol>, laterSections: seq<OutputSection>,
                  sections: seq<OutputSection>, n: nat, first: nat)
    requires BaseIs(base, arena, sections, n, first)
    requires |arena| <= |later| && forall p :: 0 <= p < |arena| ==> later[p].name == arena[p].name
    requires |sections| <= |laterSections|
    requires forall i :: 0 <= i < |sections| ==> laterSections[i].name == sections[i].name
    ensures BaseIs(base, later, laterSections, n, first)
  {
    var order := Order(n, first - 1);
    forall i | 0 <= i < |order|
      ensures order[i] < |later| && later[order[i]].name == arena[order[i]].name
    {
      assert order[i] < |arena|;
    }
    assert SymbolNames(later, order) == SymbolNames(arena, order);
    assert SectionNames(laterSections[..first]) == SectionNames(sections[..first]);
  }

  /** The state once every section is in the list and the slots are set. */
  ghost predicate SectionsBuilt(w: RplWriter, before: seq<Symbol>, stubs: nat, data: seq<DataSection>, base: nat)
    reads w, w.file
  {
    && Added(|before|, w.file.arena, w.file.symbols, w.sections, w.symbolItr)
    && Linked(w.sections) && Carries(w.sections, data) && AllHomed(w.sections, w.file.relocations)
    && OnlySlots(w.file.arena, before, stubs, |before|)
    && ImportsBuilt(w.file.arena, w.sections, |before|, base, w.file.libs)
    && RelasBetween(w.sections, data, |w.file.libs|) && w.log == []
  }

  /** The writer has predicted the sizes, with `count` sections up to the last import section. */
  ghost predicate WriterPredicted(w: RplWriter, n: nat, count: nat)
    reads w, w.file
  {
    |w.file.libs| < count &&
    SizesPredicted(w.predictStrTabSize, w.predictSymTabSize, w.file.arena, n, count - |w.file.libs|)
  }

  /** The sizes depend on names only. */
  lemma SlotsKeepSizes(w: RplWriter, arena: seq<Symbol>, stubs: nat, n: nat, first: nat, count: nat)
    requires SizesPredicted(w.predictStrTabSize, w.predictSymTabSize, arena, n, first)
    requires OnlySlots(w.file.arena, arena, stubs, n) && count == first + |w.file.libs|
    ensures WriterPredicted(w, n, count)
  {
    SlotsKeepNames(w.file.arena, arena, stubs, n);
    SizesStay(w.predictStrTabSize, w.predictSymTabSize, w.file.arena, arena, n, first);
  }

  /** The sections between the input's and those of the libraries, which are `imports`, are at address zero. */
  ghost predicate RelasBetween(sections: seq<OutputSection>, data: seq<DataSection>, imports: nat) {
    forall i :: 1 + |data| <= i < |sections| - imports ==> sections[i].addr == 0
  }

  /**
   * What has become of the symbols: those read have kept all but the addresses of stubs, every section has its
   * symbol behind them, and the list holds exactly those that are not prunable.
   */
  ghost predicate Standing(arena: seq<Symbol>, symbols: seq<Ptr>, before: seq<Symbol>, stubs: nat,
                           sections: seq<OutputSection>)
  {
    && 1 <= |sections| && |arena| == |before| + |sections| - 1 && OnlySlots(arena, before, stubs, |before|)
    && (forall j :: 1 <= j < |sections| ==> Describes(arena[|before| + j - 1], sections[j]))
    && forall p: Ptr :: p < |arena| ==> (p in symbols <==> !Prunable(arena[p]))
  }

  lemma StandsNow(arena: seq<Symbol>, listed: seq<Ptr>, symbols: seq<Ptr>, before: seq<Symbol>, stubs: nat,
                  sections: seq<OutputSection>, itr: nat, freed: set<Ptr>)
    requires Added(|before|, arena, listed, sections, itr) && OnlySlots(arena, before, stubs, |before|)
    requires Owned(arena, symbols, freed) && FreedIs(arena, freed)
    ensures Standing(arena, symbols, before, stubs, sections)
  {
  }

  /** The import sections end the list, the load address was predicted in front of them, and the slots are set. */
  ghost predicate ImportsBuilt(arena: seq<Symbol>, sections: seq<OutputSection>, n: nat, base: nat,
                               libs: seq<Library>)
  {
    && |libs| < |sections| && base % 4 == 0 && SlotsSet(arena, base, libs, |libs|)
    && SectionsAdded(sections, |sections| - |libs|, base, libs, |libs|)
    && BaseIs(base, arena, sections, n, |sections| - |libs|)
  }

  lemma ImportsBuild(earlier: seq<Symbol>, arena: seq<Symbol>, before: seq<OutputSection>, sections: seq<OutputSection>,
                     symbols: seq<Ptr>, n: nat, stubs: nat, base: nat, libs: seq<Library>)
    requires n >= 4 && |before| >= 1 && symbols == Order(n, |before| - 1) && Allocated(earlier, symbols)
    requires base % 4 == 0 && LoadPredicted(base, SymbolNames(earlier, symbols), SectionNames(before))
    requires OnlySlots(arena, earlier, stubs, n) && SlotsSet(arena, base, libs, |libs|)
    requires |sections| == |before| + |libs| && SectionsAdded(sections, |before|, base, libs, |libs|)
    requires Extends(sections, before)
    ensures ImportsBuilt(arena, sections, n, base, libs)
  {
    assert before[..|before|] == before;
    SlotsKeepNames(arena, earlier, stubs, n);
    ExtendsKeepsNames(sections, before);
    BaseStays(base, arena, earlier, sections, before, n, |before|);
  }

  lemma SlotsKeepNames(arena: seq<Symbol>, earlier: seq<Symbol>, stubs: nat, n: nat)
    requires OnlySlots(arena, earlier, stubs, n)
    ensures |earlier| <= |arena| && forall p :: 0 <= p < |earlier| ==> arena[p].name == earlier[p].name
  {
  }

  lemma ExtendsKeepsNames(sections: seq<OutputSection>, before: seq<OutputSection>)
    requires Extends(sections, before)
    ensures forall i :: 0 <= i < |before| ==> sections[i].name == before[i].name
  {
    assert forall i :: 0 <= i < |before| ==> SameRange(sections[i], before[i]);
  }

  lemma DataCarries(sections: seq<OutputSection>, data: seq<DataSection>, n: nat, arena: seq<Symbol>,
                    symbols: seq<Ptr>, itr: nat)
    requires Added(n, arena, symbols, sections, itr)
    requires DataAdded(sections, data) && |sections| == 1 + |data|
    ensures Carries(sections, data) && Linked(sections) && RelasFollow(sections, data)
  {
    forall d | 0 <= d < |data|
      ensures Brings(sections[1 + d], data[d])
    {
      assert IsData(sections[1 + d], data[1 + d - 1]);
    }
    forall i: nat, v: nat | i < |sections|
      ensures !Owns(sections, i, v)
    {
      assert i > 0 ==> IsData(sections[i], data[i - 1]);
    }
    forall i | 0 <= i < |sections|
      ensures sections[i].relocationSection.None?
    {
      assert i > 0 ==> IsData(sections[i], data[i - 1]);
    }
  }

  method BuildSections(file: ElfFile, data: seq<DataSection>, ghost stubs: nat)
    returns (ok: bool, w: RplWriter, base: nat)
    requires SymbolsRead(file.arena, file.symbols, AllImports(file.libs))
    requires stubs == |file.arena| - |AllImports(file.libs)|
    modifies file`arena, file`symbols
    ensures fresh(w) && w.file == file
    ensures ok <==> AllReach(data, file.relocations)
    ensures ok ==> SectionsBuilt(w, old(file.arena), stubs, data, base)
    ensures ok ==> WriterPredicted(w, |old(file.arena)|, |w.sections|)
  {
    base := 0;
    ghost var before := file.arena;
    w := new RplWriter(file);
    assert file.symbols == Order(|before|, 0);
    w.AddDataSections(data, |before|);
    DataCarries(w.sections, data, |before|, w.file.arena, w.file.symbols, w.symbolItr);
    ghost var sections := w.sections;
    ok := AddRelaSections(w, data, |before|);
    if !ok {
      return;
    }
    GrowingCarries(w.sections, sections, data);
    base := FinishSections(w, before, stubs, data);
  }

  /** The import half: predicts the load address and lays out the import sections. */
  method FinishSections(w: RplWriter, ghost before: seq<Symbol>, ghost stubs: nat, ghost data: seq<DataSection>)
    returns (base: nat)
    requires Added(|before|, w.file.arena, w.file.symbols, w.sections, w.symbolItr)
    requires Linked(w.sections) && Carries(w.sections, data) && AllHomed(w.sections, w.file.relocations)
    requires RelasFollow(w.sections, data) && before <= w.file.arena && w.log == []
    requires Numbered(AllImports(w.file.libs), stubs) && stubs + |AllImports(w.file.libs)| == |before|
    modifies w`sections, w`symbolItr, w`predictStrTabSize, w`predictSymTabSize, w.file`arena, w.file`symbols
    ensures SectionsBuilt(w, before, stubs, data, base) && WriterPredicted(w, |before|, |w.sections|)
  {
    base := PredictSizes(w, |before|);
    PlaceImports(w, base, before, stubs, data);
  }

  /** The symbols that the sizes are predicted from. */
  method PredictSizes(w: RplWriter, ghost n: nat) returns (load: nat)
    requires Added(n, w.file.arena, w.file.symbols, w.sections, w.symbolItr)
    modifies w`predictStrTabSize, w`predictSymTabSize
    ensures Allocated(w.file.arena, w.file.symbols) && load % 4 == 0
    ensures LoadPredicted(load, SymbolNames(w.file.arena, w.file.symbols), SectionNames(w.sections))
    ensures SizesPredicted(w.predictStrTabSize, w.predictSymTabSize, w.file.arena, n, |w.sections|)
  {
    load := PredictLoadAddress(w);
  }

  method PlaceImports(w: RplWriter, base: nat, ghost before: seq<Symbol>, ghost stubs: nat,
                      ghost data: seq<DataSection>)
    requires Added(|before|, w.file.arena, w.file.symbols, w.sections, w.symbolItr) && base % 4 == 0
    requires Linked(w.sections) && Carries(w.sections, data) && AllHomed(w.sections, w.file.relocations)
    requires Allocated(w.file.arena, w.file.symbols)
    requires LoadPredicted(base, SymbolNames(w.file.arena, w.file.symbols), SectionNames(w.sections))
    requires RelasFollow(w.sections, data) && before <= w.file.arena && w.log == []
    requires Numbered(AllImports(w.file.libs), stubs) && stubs + |AllImports(w.file.libs)| == |before|
    requires SizesPredicted(w.predictStrTabSize, w.predictSymTabSize, w.file.arena, |before|, |w.sections|)
    modifies w`sections, w`symbolItr, w.file`arena, w.file`symbols
    ensures SectionsBuilt(w, before, stubs, data, base) && WriterPredicted(w, |before|, |w.sections|)
  {
    ghost var arena, sections := w.file.arena, w.sections;
    AddImports(w, base, |before|, stubs);
    ImportsKeepRest(before, arena, w.file.arena, sections, w.sections, w.file.relocations, stubs, data);
    SlotsKeepSizes(w, arena, stubs, |before|, |sections|, |w.sections|);
  }

  method AddImports(w: RplWriter, base: nat, ghost n: nat, ghost stubs: nat)
    requires Added(n, w.file.arena, w.file.symbols, w.sections, w.symbolItr) && base % 4 == 0
    requires Linked(w.sections) && Allocated(w.file.arena, w.file.symbols)
    requires LoadPredicted(base, SymbolNames(w.file.arena, w.file.symbols), SectionNames(w.sections))
    requires Numbered(AllImports(w.file.libs), stubs) && stubs + |AllImports(w.file.libs)| == n
    modifies w`sections, w`symbolItr, w.file`arena, w.file`symbols
    ensures Added(n, w.file.arena, w.file.symbols, w.sections, w.symbolItr) && Linked(w.sections)
    ensures ImportsBuilt(w.file.arena, w.sections, n, base, w.file.libs)
    ensures Grows(w.sections, old(w.sections)) && OnlySlots(w.file.arena, old(w.file.arena), stubs, n)
    ensures |w.sections| == |old(w.sections)| + |w.file.libs|
  {
    ghost var arena, symbols, sections := w.file.arena, w.file.symbols, w.sections;
    AddImportSections(w, base, n, stubs);
    ImportsBuild(arena, w.file.arena, sections, w.sections, symbols, n, stubs, base, w.file.libs);
  }

  lemma ImportsKeepRest(before: seq<Symbol>, earlier: seq<Symbol>, arena: seq<Symbol>, sections: seq<OutputSection>,
                        later: seq<OutputSection>, relocations: seq<Relocation>, stubs: nat, data: seq<DataSection>)
    requires Grows(later, sections) && AllHomed(sections, relocations) && Carries(sections, data)
    requires before <= earlier && OnlySlots(arena, earlier, stubs, |before|)
    requires RelasFollow(sections, data)
    ensures AllHomed(later, relocations) && Carries(later, data) && OnlySlots(arena, before, stubs, |before|)
    ensures RelasBetween(later, data, |later| - |sections|)
  {
    assert forall i :: 0 <= i < |sections| ==> SameRange(later[i], sections[i]);
    HomesStay(later, sections, relocations);
    GrowingCarries(later, sections, data);
    OnlySlotsTransitive(arena, earlier, before, stubs, |before|);
  }

  // ---------- Pruning and conversion ----------

  /** After pruning, the bases are at 1 and 2 and every stub is still listed. */
  lemma PrunedHolds(before: seq<Symbol>, listed: seq<Ptr>, imports: seq<RplImport>, arena: seq<Symbol>, m: nat,
                    stubs: nat)
    requires SymbolsRead(before, listed, imports) && stubs == |before| - |imports|
    requires |arena| == |before| + m && OnlySlots(arena, before, stubs, |before|)
    requires |Kept(arena, Order(|before|, m))| <= 0x100_0000
    ensures Pruned(|before|, stubs, arena, Kept(arena, Order(|before|, m)))
  {
    var order := Order(|before|, m);
    var kept := Kept(arena, order);
    OrderDistinct(|before|, m);
    KeptReserved(arena, order);
    forall p | stubs <= p < |before|
      ensures p in kept && arena[p].address < TWO_TO_32
    {
      KeptMembers(arena, order, p);
    }
    forall i | 0 <= i < |kept|
      ensures kept[i] < |arena|
    {
      KeptMembers(arena, order, kept[i]);
      assert kept[i] in kept;
    }
  }

  /** Every expected relocation has its entry, in order, and each entry means what was expected. */
  ghost predicate AllEmitted(arena: seq<Symbol>, symbols: seq<Ptr>, log: seq<(nat, Rela)>, es: seq<Expect>) {
    |log| == |es| && forall k :: 0 <= k < |es| ==> Emits(arena, symbols, log[k].1, es[k])
  }

  /** Whatever the number of symbols, each entry has the place and the type that were expected. */
  ghost predicate AllTyped(log: seq<(nat, Rela)>, es: seq<Expect>) {
    |log| == |es| && forall k :: 0 <= k < |es| ==> log[k].1.offset == es[k].target && TypeKept(log[k].1, es[k].kind)
  }

  lemma EntriesTyped(before: seq<Symbol>, stubs: nat, symbols: seq<Ptr>, base: seq<OutputSection>,
                     rs: seq<Relocation>, es: seq<Expect>, log: seq<(nat, Rela)>)
    requires AllStandFor(before, stubs, rs, es) && AllFit(es) && Logged(base, symbols, rs, log)
    ensures AllTyped(log, es)
  {
    forall k | 0 <= k < |es|
      ensures log[k].1.offset == es[k].target && TypeKept(log[k].1, es[k].kind)
    {
      assert StandsFor(before, stubs, rs[k], es[k]) && Fits(es[k]) && EntryIs(symbols, rs[k], log[k].1);
      InfoType(rs[k].kind, IndexOf(symbols, rs[k].symbol).value);
    }
  }

  lemma AllEntriesKeepMeaning(n: nat, stubs: nat, before: seq<Symbol>, arena: seq<Symbol>, symbols: seq<Ptr>,
                              base: seq<OutputSection>, rs: seq<Relocation>, es: seq<Expect>, log: seq<(nat, Rela)>)
    requires Pruned(n, stubs, arena, symbols) && |before| == n && OnlySlots(arena, before, stubs, n)
    requires AllStandFor(before, stubs, rs, es) && AllFit(es)
    requires Logged(base, symbols, rs, log)
    ensures AllEmitted(arena, symbols, log, es)
  {
    forall k | 0 <= k < |es|
      ensures Emits(arena, symbols, log[k].1, es[k])
    {
      assert StandsFor(before, stubs, rs[k], es[k]) && Fits(es[k]);
      assert EntryIs(symbols, rs[k], log[k].1);
      EntryKeepsMeaning(n, stubs, before, arena, symbols, rs[k], es[k]);
    }
  }

  lemma EachReady(before: seq<Symbol>, stubs: nat, rs: seq<Relocation>, es: seq<Expect>, arena: seq<Symbol>)
    requires AllStandFor(before, stubs, rs, es) && AllFit(es) && |before| <= |arena|
    ensures AllReady(arena, rs)
  {
    forall r | r in rs
      ensures Ready(arena, r)
    {
      var k :| 0 <= k < |rs| && rs[k] == r;
      assert StandsFor(before, stubs, rs[k], es[k]) && Fits(es[k]);
      AddendFits(before, stubs, rs[k], es[k]);
    }
  }

  ghost predicate NoneAstray(es: seq<Expect>) {
    forall k :: 0 <= k < |es| ==> !Astray(es[k])
  }

  /** Relocation `k` is the first to go through a pointer to a destroyed symbol, or a null one. */
  ghost predicate FirstAstray(k: nat, es: seq<Expect>) {
    k < |es| && Astray(es[k]) && NoneAstray(es[..k])
  }

  /** A relocation's symbol survives pruning exactly when the relocation means neither a label nor nothing. */
  lemma AliveIsNotAstray(before: seq<Symbol>, listed: seq<Ptr>, imports: seq<RplImport>, arena: seq<Symbol>,
                         freed: set<Ptr>, r: Relocation, e: Expect)
    requires SymbolsRead(before, listed, imports)
    requires OnlySlots(arena, before, |before| - |imports|, |before|)
    requires FreedIs(arena, freed)
    requires StandsFor(before, |before| - |imports|, r, e)
    ensures Alive(freed, r) <==> !Astray(e)
  {
    match e.meaning
    case Slot(stub) => assert IsStub(before[stub]);
    case Place(_) => assert arena[r.symbol.value] == before[r.symbol.value];
    case Label(_) => assert arena[r.symbol.value] == before[r.symbol.value];
    case Nothing =>
  }

  lemma LoggedHomes(before: seq<Symbol>, stubs: nat, symbols: seq<Ptr>, base: seq<OutputSection>,
                    rs: seq<Relocation>, es: seq<Expect>, log: seq<(nat, Rela)>)
    requires AllStandFor(before, stubs, rs, es) && Logged(base, symbols, rs, log)
    ensures AllGoTo(base, es, log)
  {
    forall k | 0 <= k < |es|
      ensures GoesTo(base, es[k].target, log[k].0)
    {
      assert StandsFor(before, stubs, rs[k], es[k]) && GoesTo(base, rs[k].target, log[k].0);
    }
  }

  /** Each entry went to the relocation section of the section its target lies in. */
  ghost predicate AllGoTo(base: seq<OutputSection>, es: seq<Expect>, log: seq<(nat, Rela)>) {
    |log| == |es| && forall k :: 0 <= k < |es| ==> GoesTo(base, es[k].target, log[k].0)
  }

  /** Exactly the prunable symbols have been destroyed. */
  ghost predicate FreedIs(arena: seq<Symbol>, freed: set<Ptr>) {
    forall p: Ptr :: p < |arena| ==> (p in freed <==> Prunable(arena[p]))
  }

  /** The list is the symbols read, with the section symbols behind the reserved four. */
  ghost predicate InOrder(arena: seq<Symbol>, symbols: seq<Ptr>, n: nat, m: nat) {
    n >= 4 && |arena| == n + m && symbols == Order(n, m)
  }

  ghost predicate AllReady(arena: seq<Symbol>, rs: seq<Relocation>) {
    forall r :: r in rs ==> Ready(arena, r)
  }

  /** Prunes the symbols and converts the relocations of a file whose sections are built. */
  method PruneAndConvert(w: RplWriter, ghost n: nat, ghost m: nat) returns (outcome: Outcome)
    requires AllHomed(w.sections, w.file.relocations) && Linked(w.sections) && w.log == [] && w.file.freed == {}
    requires InOrder(w.file.arena, w.file.symbols, n, m)
    requires AllReady(w.file.arena, w.file.relocations)
    modifies w`sections, w`log, w.file`symbols, w.file`freed
    ensures w.file.symbols == Kept(w.file.arena, old(w.file.symbols)) && FreedIs(w.file.arena, w.file.freed)
    ensures Allocated(w.file.arena, w.file.symbols) && Distinct(w.file.symbols)
    ensures Owned(w.file.arena, w.file.symbols, w.file.freed)
    ensures !outcome.Failed? && (outcome.Done? <==> AllAlive(w.file.freed, w.file.relocations))
    ensures outcome.BadPointer? ==> FirstLost(|w.log|, w.file.freed, w.file.relocations)
    ensures Filled(w.sections, old(w.sections), w.log)
    ensures outcome.Done? ==> Logged(old(w.sections), w.file.symbols, w.file.relocations, w.log)
  {
    PruneSymbols(w.file);
    PruningLeaves(w.file.arena, n, m, w.file.freed);
    outcome := ConvertRelocations(w);
  }

  /** What pruning leaves, as conversion needs it. */
  lemma PruningLeaves(arena: seq<Symbol>, n: nat, m: nat, freed: set<Ptr>)
    requires n >= 4 && |arena| == n + m && Freed(arena, Order(n, m), freed, {})
    ensures Owned(arena, Kept(arena, Order(n, m)), freed) && FreedIs(arena, freed)
    ensures Allocated(arena, Kept(arena, Order(n, m))) && Distinct(Kept(arena, Order(n, m)))
  {
    OrderDistinct(n, m);
    KeptDistinct(arena, Order(n, m));
    PrunedOwns(arena, Order(n, m), freed);
  }

  /**
   * After section insertion, slot layout and pruning, conversion goes through exactly when no relocation means a
   * label or nothing.
   */
  lemma ConversionGoesThrough(before: seq<Symbol>, listed: seq<Ptr>, imports: seq<RplImport>, arena: seq<Symbol>,
                              freed: set<Ptr>, stubs: nat, rs: seq<Relocation>, es: seq<Expect>)
    requires SymbolsRead(before, listed, imports) && FreedIs(arena, freed) && stubs == |before| - |imports|
    requires OnlySlots(arena, before, stubs, |before|) && AllStandFor(before, stubs, rs, es)
    ensures AllAlive(freed, rs) <==> NoneAstray(es)
    ensures forall k: nat :: FirstLost(k, freed, rs) ==> FirstAstray(k, es)
  {
    forall k | 0 <= k < |rs|
      ensures Alive(freed, rs[k]) <==> !Astray(es[k])
    {
      assert StandsFor(before, stubs, rs[k], es[k]);
      AliveIsNotAstray(before, listed, imports, arena, freed, rs[k], es[k]);
    }
    assert forall k :: 0 <= k < |rs| ==> rs[k] in rs;
    forall k: nat | FirstLost(k, freed, rs)
      ensures FirstAstray(k, es)
    {
      assert forall j :: 0 <= j < k ==> rs[..k][j] in rs[..k];
    }
  }

  /**
   * And then every entry still means what was read, and is in the relocation section of the section its target
   * lies in.
   */
  lemma ConversionIsSound(before: seq<Symbol>, listed: seq<Ptr>, imports: seq<RplImport>, arena: seq<Symbol>, m: nat,
                          symbols: seq<Ptr>, stubs: nat, base: seq<OutputSection>, rs: seq<Relocation>,
                          es: seq<Expect>, log: seq<(nat, Rela)>)
    requires SymbolsRead(before, listed, imports) && stubs == |before| - |imports|
    requires |arena| == |before| + m && OnlySlots(arena, before, stubs, |before|)
    requires symbols == Kept(arena, Order(|before|, m))
    requires AllStandFor(before, stubs, rs, es) && AllFit(es)
    requires Logged(base, symbols, rs, log)
    ensures AllGoTo(base, es, log) && AllTyped(log, es)
    ensures |symbols| <= 0x100_0000 ==> AllEmitted(arena, symbols, log, es)
  {
    LoggedHomes(before, stubs, symbols, base, rs, es, log);
    EntriesTyped(before, stubs, symbols, base, rs, es, log);
    if |symbols| <= 0x100_0000 {
      PrunedHolds(before, listed, imports, arena, m, stubs);
      AllEntriesKeepMeaning(|before|, stubs, before, arena, symbols, base, rs, es, log);
    }
  }

  /** Every section but the null one is untouched and described by its symbol. */
  ghost predicate SymbolsDescribe(arena: seq<Symbol>, sections: seq<OutputSection>) {
    && 1 <= |sections| <= |arena| && sections[0] == NULL_SECTION
    && forall i :: 1 <= i < |sections| ==>
         && sections[i].sectionSymbol == Some(|arena| - |sections| + i)
         && Describes(arena[|arena| - |sections| + i], sections[i])
         && Untouched(sections[i])
  }

  lemma AddedDescribes(n: nat, m: nat, arena: seq<Symbol>, symbols: seq<Ptr>, sections: seq<OutputSection>, itr: nat)
    requires Added(n, arena, symbols, sections, itr) && n + m == |arena|
    ensures SymbolsDescribe(arena, sections) && InOrder(arena, symbols, n, m)
  {
    forall i | 1 <= i < |sections|
      ensures sections[i].sectionSymbol == Some(|arena| - |sections| + i) && Untouched(sections[i])
      ensures Describes(arena[|arena| - |sections| + i], sections[i])
    {
      assert |arena| - |sections| + i == n + i - 1;
      assert Describes(arena[n + i - 1], sections[i]);
    }
  }

  lemma {:induction false} KeptDistinct(arena: seq<Symbol>, symbols: seq<Ptr>)
    requires Allocated(arena, symbols) && Distinct(symbols)
    ensures Distinct(Kept(arena, symbols)) && Allocated(arena, Kept(arena, symbols))
  {
    if symbols != [] {
      var init, last := symbols[..|symbols| - 1], symbols[|symbols| - 1];
      KeptDistinct(arena, init);
      KeptMembers(arena, init, last);
      var kept := Kept(arena, init);
      assert forall i :: 0 <= i < |kept| ==> kept[i] in kept;
    }
  }

  /**
   * The whole writing stage up to the relocation entries; `sections` are the sections before any entry. It fails
   * exactly when some target is in no section.
   */
  method EmitFile(file: ElfFile, data: seq<DataSection>, ghost es: seq<Expect>, ghost stubs: nat)
    returns (outcome: Outcome, w: RplWriter, base: nat, ghost sections: seq<OutputSection>)
    requires SymbolsRead(file.arena, file.symbols, AllImports(file.libs)) && file.freed == {}
    requires stubs == |file.arena| - |AllImports(file.libs)|
    requires AllStandFor(file.arena, stubs, file.relocations, es) && AllFit(es)
    modifies file`arena, file`symbols, file`freed
    ensures fresh(w) && w.file == file
    ensures outcome.Failed? <==> !AllReach(data, file.relocations)
    ensures outcome.Done? ==> NoneAstray(es)
    ensures outcome.BadPointer? ==> FirstAstray(|w.log|, es)
    ensures outcome.Done? ==> Emitted(w, sections, |old(file.arena)|, data, es, base)
    ensures outcome.Done? ==> WriterPredicted(w, |old(file.arena)|, |sections|)
    ensures outcome.Done? ==> Standing(file.arena, file.symbols, old(file.arena), stubs, sections)
  {
    ghost var before, listed, imports := file.arena, file.symbols, AllImports(file.libs);
    var ok;
    ok, w, base := BuildSections(file, data, stubs);
    sections := w.sections;
    if !ok {
      return Failed, w, base, sections;
    }
    outcome := ConvertPredicted(w, before, listed, imports, stubs, data, es, base, |before|, |sections|);
  }

  /** Conversion does not touch what was predicted. */
  method ConvertPredicted(w: RplWriter, ghost before: seq<Symbol>, ghost listed: seq<Ptr>,
                          ghost imports: seq<RplImport>, ghost stubs: nat, ghost data: seq<DataSection>,
                          ghost es: seq<Expect>, ghost base: nat, ghost n: nat, ghost count: nat)
    returns (outcome: Outcome)
    requires SectionsBuilt(w, before, stubs, data, base) && w.file.freed == {} && WriterPredicted(w, n, count)
    requires SymbolsRead(before, listed, imports) && stubs == |before| - |imports| && imports == AllImports(w.file.libs)
    requires AllStandFor(before, stubs, w.file.relocations, es) && AllFit(es)
    modifies w`sections, w`log, w.file`symbols, w.file`freed
    ensures !outcome.Failed? && (outcome.Done? ==> NoneAstray(es))
    ensures outcome.BadPointer? ==> FirstAstray(|w.log|, es)
    ensures outcome.Done? ==> Emitted(w, old(w.sections), |before|, data, es, base)
    ensures outcome.Done? ==> Standing(w.file.arena, w.file.symbols, before, stubs, old(w.sections))
    ensures WriterPredicted(w, n, count)
  {
    ghost var arena, first := w.file.arena, count - |w.file.libs|;
    ghost var strTabSize, symTabSize := w.predictStrTabSize, w.predictSymTabSize;
    PredictedAre(w, n, count, arena, first, strTabSize, symTabSize);
    outcome := ConvertBuilt(w, before, listed, imports, stubs, data, es, base);
    PredictedAre(w, n, count, arena, first, strTabSize, symTabSize);
  }

  /** The same as a property of the symbols, for what does not depend on what it says. */
  ghost function SizesOf(strTabSize: nat, symTabSize: nat, n: nat, first: nat): seq<Symbol> -> bool {
    arena => SizesPredicted(strTabSize, symTabSize, arena, n, first)
  }

  lemma PredictedBy(w: RplWriter, n: nat, count: nat, first: nat, p: seq<Symbol> -> bool)
    requires WriterPredicted(w, n, count) && first + |w.file.libs| == count
    requires p == SizesOf(w.predictStrTabSize, w.predictSymTabSize, n, first)
    ensures p(w.file.arena)
  {
  }

  /** What was predicted is a matter of these values. */
  lemma PredictedAre(w: RplWriter, n: nat, count: nat, arena: seq<Symbol>, first: nat, strTabSize: nat,
                     symTabSize: nat)
    requires arena == w.file.arena && first + |w.file.libs| == count && first > 0
    requires strTabSize == w.predictStrTabSize && symTabSize == w.predictSymTabSize
    ensures WriterPredicted(w, n, count) <==> SizesPredicted(strTabSize, symTabSize, arena, n, first)
  {
  }

  /** The part of it after the sections have been built. */
  method ConvertBuilt(w: RplWriter, ghost before: seq<Symbol>, ghost listed: seq<Ptr>, ghost imports: seq<RplImport>,
                      ghost stubs: nat, ghost data: seq<DataSection>, ghost es: seq<Expect>, ghost base: nat)
    returns (outcome: Outcome)
    requires SectionsBuilt(w, before, stubs, data, base) && w.file.freed == {}
    requires SymbolsRead(before, listed, imports) && stubs == |before| - |imports| && imports == AllImports(w.file.libs)
    requires AllStandFor(before, stubs, w.file.relocations, es)
    requires AllFit(es)
    modifies w`sections, w`log, w.file`symbols, w.file`freed
    ensures !outcome.Failed? && (outcome.Done? ==> NoneAstray(es))
    ensures outcome.BadPointer? ==> FirstAstray(|w.log|, es)
    ensures outcome.Done? ==> Emitted(w, old(w.sections), |before|, data, es, base)
    ensures outcome.Done? ==> Standing(w.file.arena, w.file.symbols, before, stubs, old(w.sections))
  {
    ghost var arena, ordered, itr, sections := w.file.arena, w.file.symbols, w.symbolItr, w.sections;
    ghost var rs, m := w.file.relocations, |w.file.arena| - |before|;
    AddedDescribes(|before|, m, arena, ordered, sections, itr);
    EachReady(before, stubs, rs, es, arena);
    outcome := PruneAndConvert(w, |before|, m);
    ConversionGoesThrough(before, listed, imports, arena, w.file.freed, stubs, rs, es);
    if outcome.Done? {
      BuiltEmits(before, listed, imports, stubs, arena, ordered, itr, m, w.file.symbols, w.file.freed, sections,
                 w.sections, rs, es, w.log, w.file.libs, data, base);
    }
  }

  /** What the entries, the symbols and the slots are once every relocation has its entry. */
  ghost predicate Emitted(w: RplWriter, sections: seq<OutputSection>, n: nat, data: seq<DataSection>,
                          es: seq<Expect>, base: nat)
    reads w, w.file
  {
    EmittedIn(w.file.arena, w.file.symbols, w.file.freed, w.sections, w.log, w.file.libs, sections, n, data, es, base)
  }

  ghost predicate EmittedIn(arena: seq<Symbol>, symbols: seq<Ptr>, freed: set<Ptr>, filled: seq<OutputSection>,
                            log: seq<(nat, Rela)>, libs: seq<Library>, sections: seq<OutputSection>, n: nat,
                            data: seq<DataSection>, es: seq<Expect>, base: nat)
  {
    && Linked(sections) && Carries(sections, data) && RelasBetween(sections, data, |libs|)
    && Filled(filled, sections, log) && AllGoTo(sections, es, log) && SymbolsDescribe(arena, sections)
    && Allocated(arena, symbols) && Distinct(symbols) && Owned(arena, symbols, freed)
    && AllTyped(log, es) && (|symbols| <= 0x100_0000 ==> AllEmitted(arena, symbols, log, es))
    && ImportsBuilt(arena, sections, n, base, libs)
  }

  lemma BuiltEmits(before: seq<Symbol>, listed: seq<Ptr>, imports: seq<RplImport>, stubs: nat, arena: seq<Symbol>,
                   ordered: seq<Ptr>, itr: nat, m: nat, symbols: seq<Ptr>, freed: set<Ptr>,
                   sections: seq<OutputSection>, filled: seq<OutputSection>, rs: seq<Relocation>, es: seq<Expect>,
                   log: seq<(nat, Rela)>, libs: seq<Library>, data: seq<DataSection>, base: nat)
    requires SymbolsRead(before, listed, imports) && stubs == |before| - |imports| && |arena| == |before| + m
    requires Added(|before|, arena, ordered, sections, itr) && OnlySlots(arena, before, stubs, |before|)
    requires Linked(sections) && Carries(sections, data) && RelasBetween(sections, data, |libs|)
    requires ImportsBuilt(arena, sections, |before|, base, libs) && SymbolsDescribe(arena, sections)
    requires symbols == Kept(arena, Order(|before|, m)) && Owned(arena, symbols, freed) && FreedIs(arena, freed)
    requires Allocated(arena, symbols) && Distinct(symbols)
    requires AllStandFor(before, stubs, rs, es) && AllFit(es)
    requires Logged(sections, symbols, rs, log) && Filled(filled, sections, log)
    ensures EmittedIn(arena, symbols, freed, filled, log, libs, sections, |before|, data, es, base)
    ensures Standing(arena, symbols, before, stubs, sections)
  {
    StandsNow(arena, ordered, symbols, before, stubs, sections, itr, freed);
    ConversionIsSound(before, listed, imports, arena, m, symbols, stubs, sections, rs, es, log);
  }
}
