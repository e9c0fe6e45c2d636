/** Inputs that pass every check of the reading stage and do not go through. */
module ElfCases {
  import opened Words
  import opened ElfSymbols
  import opened ElfRead
  import opened ElfRelocs
  import opened ElfSections
  import opened ElfRelaSections
  import opened ElfInput
  import opened ElfEnds

  // ---------- A relocation to a label ----------

  /** An object with two symbols, the first of them imported, one relocation and one section. */
  function SmallInput(first: InSymbol, second: InSymbol, def: LibDef, rela: InRela, text: DataSection): Input {
    Input([SymTab(".symtab", [first, second])], [def], map[def.stubStart := first.value], {}, [rela], [], [text])
  }

  /** The second symbol is a label, and the relocation leads there. */
  predicate ToLabel(first: InSymbol, second: InSymbol, def: LibDef, rela: InRela, text: DataSection) {
    && KeepsSymbol(first) && KeepsSymbol(second) && IsLabel(second)
    && second.value !in {0, CODE_ADDRESS, DATA_ADDRESS, first.value, def.stubStart}
    && first.value < TWO_TO_32 && second.value < TWO_TO_32 && def.stubEnd == def.stubStart + 4
    && rela.addend == second.value && !Misplaced(rela)
    && text.address < TWO_TO_32 && text.address <= rela.offset < Wrap32(text.address + text.size)
  }

  lemma OneTable(t: SymTab)
    ensures Entries([t]) == t.entries
  {
    assert [t][..0] == [] && [] + t.entries == t.entries;
  }

  lemma TwoKept(a: InSymbol, b: InSymbol)
    requires KeepsSymbol(a) && KeepsSymbol(b)
    ensures KeptSymbols([a, b]) == [a, b]
  {
    assert [a, b][..1] == [a] && [a][..0] == [];
    assert KeptSymbols([a]) == [a];
  }

  lemma SecondIsLabel(a: InSymbol, b: InSymbol)
    requires KeepsSymbol(a) && KeepsSymbol(b) && IsLabel(b)
    requires b.value !in {0, CODE_ADDRESS, DATA_ADDRESS, a.value}
    ensures a.value in KnownAddresses([a, b]).listed && b.value in LabelAddresses([a, b])
  {
    TwoKept(a, b);
    assert a in [a, b];
    assert AnswersLabel([a, b], 1);
  }

  lemma OneImport(libs: seq<Library>, def: LibDef, word: map<nat, nat>, address: nat)
    requires LibsFrom(libs, [def], word) && |libs| == 1 && def.stubEnd == def.stubStart + 4
    requires def.stubStart in word && address != def.stubStart && address != word[def.stubStart]
    ensures FirstImport(AllImports(libs), address).None?
  {
    assert libs[..0] == [] && AllImports([]) == [];
    var imports := libs[0].imports;
    assert AllImports(libs) == [] + imports;
    assert ImportsFrom(libs[0], def, word) && |imports| == StubCount(def) == 1;
    assert FirstImport(imports[1..], address).None?;
  }

  lemma OnlyStubWord(def: LibDef, a: nat)
    requires def.stubEnd == def.stubStart + 4 && IsStubWord(def, a)
    ensures a == def.stubStart
  {
    OnlyFourth(a - def.stubStart, 0);
  }

  /** The input is what the program takes for granted, and its stub word leads to the first symbol. */
  lemma SmallInputFits(first: InSymbol, second: InSymbol, def: LibDef, rela: InRela, text: DataSection)
    requires ToLabel(first, second, def, rela, text)
    ensures SmallInput(first, second, def, rela, text).Table() == [first, second]
    ensures WellFormed(SmallInput(first, second, def, rela, text))
    ensures StubsLead(SmallInput(first, second, def, rela, text))
  {
    OneTable(SymTab(".symtab", [first, second]));
    TwoKept(first, second);
    SecondIsLabel(first, second);
    OneStubLeads(SmallInput(first, second, def, rela, text), def, first.value);
  }

  lemma OneStubLeads(input: Input, def: LibDef, address: nat)
    requires input.defs == [def] && input.word == map[def.stubStart := address] && def.stubEnd == def.stubStart + 4
    requires address in KnownAddresses(input.Table()).listed
    ensures StubsLead(input)
  {
    forall l, a | 0 <= l < |input.defs| && IsStubWord(input.defs[l], a)
      ensures a in input.word && input.word[a] in KnownAddresses(input.Table()).listed
    {
      OnlyStubWord(def, a);
    }
  }

  /** The relocation means the label. */
  lemma MeansLabel(libs: seq<Library>, first: InSymbol, second: InSymbol, def: LibDef, rela: InRela, text: DataSection)
    requires ToLabel(first, second, def, rela, text)
    requires LibsFrom(libs, [def], map[def.stubStart := first.value]) && |libs| == 1
    ensures LeadsToLabel(AllImports(libs), [first, second], rela.addend)
    ensures Classify(AllImports(libs), KnownAddresses([first, second]), rela.addend).Some?
  {
    SecondIsLabel(first, second);
    OneImport(libs, def, map[def.stubStart := first.value], rela.addend);
  }

  lemma OneFine(imports: seq<RplImport>, known: Addresses, mapped: set<nat>, rela: InRela)
    requires !Misplaced(rela) && !PatchesNull(imports, known, mapped, rela)
    ensures NoneOffends(imports, known, mapped, [rela]) && !MisplacedFirst(imports, known, mapped, [rela])
  {
    NoneOffendsEnd(imports, known, mapped, [rela]);
  }

  lemma OneExpected(imports: seq<RplImport>, known: Addresses, r: InRela)
    requires Classify(imports, known, r.addend).Some?
    ensures |Expected(imports, known, [r])| == 1 && Expected(imports, known, [r])[0].target == r.offset
  {
    assert [r][..0] == [];
  }

  lemma OneReaches(text: DataSection, es: seq<Expect>)
    requires |es| == 1 && text.address <= es[0].target < Wrap32(text.address + text.size)
    ensures AllTargetsReach([text], es)
  {
    assert [text][0] == text && InData([text], es[0].target);
  }

  lemma SmallInputReads(libs: seq<Library>, first: InSymbol, second: InSymbol, def: LibDef, rela: InRela,
                        text: DataSection)
    requires ToLabel(first, second, def, rela, text)
    requires LibsFrom(libs, [def], map[def.stubStart := first.value]) && |libs| == 1
    ensures ReadingEnds(AllImports(libs), SmallInput(first, second, def, rela, text)) == Done
  {
    SmallInputFits(first, second, def, rela, text);
    MeansLabel(libs, first, second, def, rela, text);
    OneFine(AllImports(libs), KnownAddresses([first, second]), {}, rela);
  }

  lemma SmallInputReaches(libs: seq<Library>, first: InSymbol, second: InSymbol, def: LibDef, rela: InRela,
                          text: DataSection)
    requires ToLabel(first, second, def, rela, text)
    requires LibsFrom(libs, [def], map[def.stubStart := first.value]) && |libs| == 1
    ensures AllTargetsReach([text], AllExpected(AllImports(libs), SmallInput(first, second, def, rela, text)))
  {
    var input, known := SmallInput(first, second, def, rela, text), KnownAddresses([first, second]);
    SmallInputFits(first, second, def, rela, text);
    MeansLabel(libs, first, second, def, rela, text);
    OneExpected(AllImports(libs), known, rela);
    var es := Expected(AllImports(libs), known, [rela]);
    assert es + [] == es && AllExpected(AllImports(libs), input) == es + [];
    OneReaches(text, es);
  }

  /** Every such input passes every check, and its conversion reads a destroyed symbol. */
  lemma LabelGoesAstray(libs: seq<Library>, first: InSymbol, second: InSymbol, def: LibDef, rela: InRela,
                        text: DataSection)
    requires ToLabel(first, second, def, rela, text)
    requires LibsFrom(libs, [def], map[def.stubStart := first.value]) && |libs| == 1
    ensures ReadingEnds(AllImports(libs), SmallInput(first, second, def, rela, text)) == Done
    ensures ConversionEnds(AllImports(libs), SmallInput(first, second, def, rela, text)) == BadPointer
  {
    SmallInputFits(first, second, def, rela, text);
    MeansLabel(libs, first, second, def, rela, text);
    SmallInputReads(libs, first, second, def, rela, text);
    SmallInputReaches(libs, first, second, def, rela, text);
    assert [rela][0] == rela;
  }

  /** One of them: a relocation to a label at the end of the text. */
  lemma EndLabel()
    ensures ToLabel(InSymbol("OSReport", 0x0200_0000, 4, STT_FUNC), InSymbol("end", 0x0200_0100, 0, STT_NOTYPE),
                    LibDef("coreinit", 0x0100_0000, 0x0100_0004),
                    InRela(0x0200_0010, R_PPC_ADDR32, 0x0200_0100, STT_NOTYPE, 0),
                    DataSection(".text", 0x0200_0000, 1, 0x200))
  {
  }

  // ---------- A symbol at the greatest address ----------

  /** An object with nothing but one symbol. */
  function OneSymbol(s: InSymbol): Input {
    Input([SymTab(".symtab", [s])], [], map[], {}, [], [], [])
  }

  lemma OneKept(s: InSymbol)
    requires KeepsSymbol(s)
    ensures OneSymbol(s).Table() == [s] && KeptSymbols([s]) == [s]
  {
    OneTable(SymTab(".symtab", [s]));
    assert [s][..0] == [];
  }

  lemma OneSymbolReads(s: InSymbol)
    ensures ReadingEnds([], OneSymbol(s)) == Done && AllExpected([], OneSymbol(s)) == []
  {
    NoneOffendsEnd([], KnownAddresses(OneSymbol(s).Table()), {}, []);
  }

  /** If that has a type and is at the greatest address, every check is passed and the conversion fails in the end. */
  lemma FarSymbolFails(s: InSymbol)
    requires KeepsSymbol(s) && s.value == UNSET && s.info % 16 != STT_NOTYPE
    ensures WellFormed(OneSymbol(s)) && ReadingEnds([], OneSymbol(s)) == Done
    ensures PointersHold([], OneSymbol(s)) && ConversionEnds([], OneSymbol(s)) == Failed
  {
    OneKept(s);
    OneSymbolReads(s);
    assert !IsPruned([], [s], 0) && [s][0].value == UNSET;
  }
}
