/** What becomes of every relocation of the input, told in terms of the input. */
module ElfCarried {
  import opened Wrappers
  import opened ElfSymbols
  import opened ElfRead
  import opened ElfRelocs
  import opened ElfSections
  import opened ElfImportSlots
  import opened ElfConvert
  import opened ElfOutput
  import opened ElfFinish
  import opened ElfInput

  // ---------- Which import an addend belongs to ----------

  /** The address is that of stub word `i` of library `l`, or the one that this word holds. */
  predicate BelongsTo(input: Input, l: nat, i: nat, a: nat) {
    l < |input.defs| &&
    var stub := input.defs[l].stubStart + 4 * i;
    stub < input.defs[l].stubEnd && (a == stub || (stub in input.word && a == input.word[stub]))
  }

  /** And no earlier one has it. */
  ghost predicate BelongsFirst(input: Input, l: nat, i: nat, a: nat) {
    BelongsTo(input, l, i, a) && forall m: nat, j: nat :: BelongsTo(input, m, j, a) ==> l < m || (l == m && i <= j)
  }

  ghost predicate BelongsNowhere(input: Input, a: nat) {
    forall l: nat, i: nat :: !BelongsTo(input, l, i, a)
  }

  /** The symbol table entry is one that is read. */
  predicate Listed(s: InSymbol) {
    && !(0x0100_0000 <= s.value < 0x0200_0000) && !(s.info % 16 == 0 && s.value == 0)
    && s.info % 16 != 3 && s.info % 16 != 4
  }

  /** A relocation with this addend is carried over: it is an import's, or a symbol's, or lies in the text or data. */
  ghost predicate Carried(input: Input, a: nat) {
    || !BelongsNowhere(input, a) || a == 0 || 0x0200_0000 <= a < 0xC000_0000
    || exists s :: s in input.Table() && Listed(s) && s.value == a
  }

  lemma {:induction false} KeptAreListed(table: seq<InSymbol>)
    ensures forall s :: s in KeptSymbols(table) <==> s in table && Listed(s)
  {
    if table != [] {
      var init, last := table[..|table| - 1], table[|table| - 1];
      KeptAreListed(init);
      assert table == init + [last];
    }
  }

  /** The same of the imports that were read. */
  predicate ImportHit(libs: seq<Library>, l: nat, i: nat, a: nat) {
    && l < |libs| && i < |libs[l].imports|
    && (libs[l].imports[i].stubAddr == a || libs[l].imports[i].trampAddr == a)
  }

  ghost predicate NoHitBefore(libs: seq<Library>, l: nat, i: nat, a: nat) {
    forall m: nat, j: nat :: ImportHit(libs, m, j, a) ==> l < m || (l == m && i <= j)
  }

  /** Where the first import of an address is. */
  lemma {:induction false} FirstPosition(libs: seq<Library>, a: nat) returns (l: nat, i: nat)
    requires FirstImport(AllImports(libs), a).Some?
    ensures ImportHit(libs, l, i, a) && NoHitBefore(libs, l, i, a)
    ensures FirstImport(AllImports(libs), a) == Some(libs[l].imports[i])
  {
    var init, last := libs[..|libs| - 1], libs[|libs| - 1].imports;
    FirstImportConcat(AllImports(init), last, a);
    if FirstImport(AllImports(init), a).Some? {
      l, i := FirstPosition(init, a);
      HitsInFront(libs, a);
    } else {
      FirstImportIs(last, a);
      NoHits(init, a);
      l := |init|;
      i :| FirstAt(last, a, i) && last[i] == FirstImport(last, a).value;
      HitsInFront(libs, a);
    }
  }

  lemma HitsInFront(libs: seq<Library>, a: nat)
    requires libs != []
    ensures forall m: nat, j: nat :: ImportHit(libs, m, j, a) && m < |libs| - 1 <==>
              ImportHit(libs[..|libs| - 1], m, j, a)
  {
  }

  lemma {:induction false} NoHits(libs: seq<Library>, a: nat)
    requires FirstImport(AllImports(libs), a).None?
    ensures forall m: nat, j: nat :: !ImportHit(libs, m, j, a)
  {
    if libs != [] {
      var init, last := libs[..|libs| - 1], libs[|libs| - 1].imports;
      FirstImportConcat(AllImports(init), last, a);
      NoHits(init, a);
      FirstImportIs(last, a);
      HitsInFront(libs, a);
    }
  }

  /** The imports that were read are those of the stub words. */
  lemma HitsAreInput(libs: seq<Library>, input: Input, l: nat, i: nat, a: nat)
    requires LibrariesOf(libs, input)
    ensures ImportHit(libs, l, i, a) <==> BelongsTo(input, l, i, a)
  {
    if l < |libs| {
      assert ImportsFrom(libs[l], input.defs[l], input.word);
      CountIs(input.defs[l], i);
    }
  }

  lemma CountIs(def: LibDef, i: nat)
    ensures i < StubCount(def) <==> def.stubStart + 4 * i < def.stubEnd
  {
  }

  /** What an addend means, by the stub words and the symbol table. */
  lemma AddendMeans(libs: seq<Library>, input: Input, a: nat)
    requires LibrariesOf(libs, input)
    ensures var m := Classify(AllImports(libs), KnownAddresses(input.Table()), a);
            && (m.Some? <==> Carried(input, a))
            && (BelongsNowhere(input, a) ==> m.None? || m == Some(Place(a)) || m == Some(Label(a)))
            && (!BelongsNowhere(input, a) ==> exists l: nat, i: nat {:trigger BelongsFirst(input, l, i, a)} ::
                  BelongsFirst(input, l, i, a) && i < |libs[l].imports| && m == Some(Slot(libs[l].imports[i].stub)))
  {
    forall l: nat, i: nat
      ensures ImportHit(libs, l, i, a) <==> BelongsTo(input, l, i, a)
    {
      HitsAreInput(libs, input, l, i, a);
    }
    KeptAreListed(input.Table());
    LabelsAreKnown(input.Table());
    if FirstImport(AllImports(libs), a).Some? {
      var l, i := FirstPosition(libs, a);
      assert BelongsFirst(input, l, i, a);
    } else {
      NoHits(libs, a);
    }
  }

  // ---------- Which entry is whose ----------

  /** How many of the first `n` static relocations are carried over. */
  ghost function CarriedBefore(input: Input, n: nat): nat
    requires n <= |input.relas|
  {
    if n == 0 then 0
    else CarriedBefore(input, n - 1) + if Carried(input, input.relas[n - 1].addend) then 1 else 0
  }

  /** A loader relocation that is not padding is carried over when its target is in the text or data. */
  predicate CarriedDyn(r: DynRela) {
    r.kind != 0 && 0x0200_0000 <= r.offset < 0xC000_0000
  }

  /** How many of the first `n` loader relocations are. */
  function CarriedDynBefore(input: Input, n: nat): nat
    requires n <= |input.dyn|
  {
    if n == 0 then 0 else CarriedDynBefore(input, n - 1) + if CarriedDyn(input.dyn[n - 1]) then 1 else 0
  }

  /** The libraries that were read are those of the input. */
  ghost predicate LibrariesOf(libs: seq<Library>, input: Input) {
    LibsFrom(libs, input.defs, input.word) && |libs| == |input.defs|
  }

  /** One more static relocation. */
  lemma StaticExpected(libs: seq<Library>, input: Input, i: nat, before: seq<Expect>, es: seq<Expect>)
    requires LibrariesOf(libs, input) && i < |input.relas|
    requires before == Expected(AllImports(libs), KnownAddresses(input.Table()), input.relas[..i])
    requires es == Expected(AllImports(libs), KnownAddresses(input.Table()), input.relas[..i + 1])
    ensures var r := input.relas[i];
            var m := Classify(AllImports(libs), KnownAddresses(input.Table()), r.addend);
            if Carried(input, r.addend)
            then m.Some? && es == before + [Expect(r.offset, r.info % 256, m.value)]
            else es == before
  {
    assert input.relas[..i + 1][..i] == input.relas[..i];
    AddendMeans(libs, input, input.relas[i].addend);
  }

  /** One more loader relocation. */
  lemma DynExpected(libs: seq<Library>, input: Input, i: nat, before: seq<Expect>, es: seq<Expect>)
    requires LibrariesOf(libs, input) && i < |input.dyn|
    requires DynReadable(AllImports(libs), KnownAddresses(input.Table()), input.dyn)
    requires before == ExpectedDyn(AllImports(libs), KnownAddresses(input.Table()), input.dyn[..i])
    requires es == ExpectedDyn(AllImports(libs), KnownAddresses(input.Table()), input.dyn[..i + 1])
    ensures var r := input.dyn[i];
            var m := ClassifyDyn(AllImports(libs), KnownAddresses(input.Table()), r);
            if CarriedDyn(r)
            then m.Some? && es == before + [Expect(r.offset, R_PPC_ADDR32, m.value)]
            else es == before
  {
    assert input.dyn[..i + 1][..i] == input.dyn[..i];
    assert DynAccepted(AllImports(libs), KnownAddresses(input.Table()), input.dyn[i]);
  }

  /** Expectation `k` is this one. */
  predicate IsAt(es: seq<Expect>, k: nat, target: nat, kind: nat, m: Option<Meaning>) {
    k < |es| && m.Some? && es[k] == Expect(target, kind, m.value)
  }

  /** The expectation for a carried relocation is the one behind those in front of it. */
  lemma {:induction false} ExpectedAt(libs: seq<Library>, input: Input, n: nat, i: nat, es: seq<Expect>)
    requires LibrariesOf(libs, input) && n <= |input.relas|
    requires es == Expected(AllImports(libs), KnownAddresses(input.Table()), input.relas[..n])
    ensures |es| == CarriedBefore(input, n)
    ensures i < n && Carried(input, input.relas[i].addend) ==>
              IsAt(es, CarriedBefore(input, i), input.relas[i].offset, input.relas[i].info % 256,
                   Classify(AllImports(libs), KnownAddresses(input.Table()), input.relas[i].addend))
    decreases n
  {
    if n > 0 {
      var before := Expected(AllImports(libs), KnownAddresses(input.Table()), input.relas[..n - 1]);
      ExpectedAt(libs, input, n - 1, if i < n - 1 then i else 0, before);
      StaticExpected(libs, input, n - 1, before, es);
    }
  }

  lemma {:induction false} ExpectedDynAt(libs: seq<Library>, input: Input, n: nat, i: nat, es: seq<Expect>)
    requires LibrariesOf(libs, input) && n <= |input.dyn|
    requires DynReadable(AllImports(libs), KnownAddresses(input.Table()), input.dyn)
    requires es == ExpectedDyn(AllImports(libs), KnownAddresses(input.Table()), input.dyn[..n])
    ensures |es| == CarriedDynBefore(input, n)
    ensures i < n && CarriedDyn(input.dyn[i]) ==>
              IsAt(es, CarriedDynBefore(input, i), input.dyn[i].offset, R_PPC_ADDR32,
                   ClassifyDyn(AllImports(libs), KnownAddresses(input.Table()), input.dyn[i]))
    decreases n
  {
    if n > 0 {
      var before := ExpectedDyn(AllImports(libs), KnownAddresses(input.Table()), input.dyn[..n - 1]);
      ExpectedDynAt(libs, input, n - 1, if i < n - 1 then i else 0, before);
      DynExpected(libs, input, n - 1, before, es);
    }
  }

  // ---------- What the entries say ----------

  /** Slot `i` in section `v`: eight bytes each behind a header of eight. */
  function SlotIn(sections: seq<OutputSection>, v: nat, i: nat): nat
    requires v < |sections|
  {
    (sections[v].addr + 8 + 8 * i) % 0x1_0000_0000
  }

  /**
   * The address that a relocation with this addend has to come to in the finished object, where the sections of the
   * libraries are in front of the last five.
   */
  ghost predicate ComesTo(input: Input, sections: seq<OutputSection>, a: nat, value: nat)
    requires |sections| >= 5 + |input.defs|
  {
    && (BelongsNowhere(input, a) ==> value == a)
    && forall l: nat, i: nat :: BelongsFirst(input, l, i, a) ==>
         value == SlotIn(sections, |sections| - 5 - |input.defs| + l, i)
  }

  /**
   * The entry is for this place, of this type, with 22 written as 1, and the value of its symbol and its addend come
   * to what they have to.
   */
  ghost predicate Became(input: Input, arena: seq<Symbol>, symbols: seq<Ptr>, sections: seq<OutputSection>, rela: Rela,
                         offset: nat, kind: nat, a: nat)
    requires |sections| >= 5 + |input.defs|
  {
    && rela.offset == offset && rela.info % 256 == (if kind == 22 then 1 else kind)
    && (|symbols| <= 0x100_0000 ==>
          && rela.info / 256 < |symbols| && symbols[rela.info / 256] < |arena|
          && ComesTo(input, sections, a, (arena[symbols[rela.info / 256]].address + rela.addend) % 0x1_0000_0000))
  }

  /** Every relocation that is carried over has become an entry, in order, and there are no others. */
  ghost predicate AllBecame(input: Input, arena: seq<Symbol>, symbols: seq<Ptr>, sections: seq<OutputSection>,
                            log: seq<(nat, Rela)>)
  {
    && |sections| >= 5 + |input.defs|
    && |log| == CarriedBefore(input, |input.relas|) + CarriedDynBefore(input, |input.dyn|)
    && (forall i :: 0 <= i < |input.relas| && Carried(input, input.relas[i].addend) ==>
          StaticBecame(input, arena, symbols, sections, log, i))
    && forall i :: 0 <= i < |input.dyn| && CarriedDyn(input.dyn[i]) ==>
         DynBecame(input, arena, symbols, sections, log, i)
  }

  /** Static relocation `i` has become the entry behind those of the carried ones in front of it. */
  ghost predicate StaticBecame(input: Input, arena: seq<Symbol>, symbols: seq<Ptr>, sections: seq<OutputSection>,
                               log: seq<(nat, Rela)>, i: nat)
    requires |sections| >= 5 + |input.defs| && i < |input.relas|
  {
    var k, r := CarriedBefore(input, i), input.relas[i];
    k < |log| && Became(input, arena, symbols, sections, log[k].1, r.offset, r.info % 256, r.addend)
  }

  /** So has loader relocation `i`, behind all the static ones. */
  ghost predicate DynBecame(input: Input, arena: seq<Symbol>, symbols: seq<Ptr>, sections: seq<OutputSection>,
                            log: seq<(nat, Rela)>, i: nat)
    requires |sections| >= 5 + |input.defs| && i < |input.dyn|
  {
    var k, r := CarriedBefore(input, |input.relas|) + CarriedDynBefore(input, i), input.dyn[i];
    k < |log| && Became(input, arena, symbols, sections, log[k].1, r.offset, 22, r.addend)
  }

  lemma OneIsFirst(input: Input, l: nat, i: nat, m: nat, j: nat, a: nat)
    requires BelongsFirst(input, l, i, a) && BelongsFirst(input, m, j, a)
    ensures l == m && i == j
  {
    assert BelongsTo(input, l, i, a) && BelongsTo(input, m, j, a);
  }

  /** An import's slot is in its library's section. */
  lemma SlotComesTo(arena: seq<Symbol>, sections: seq<OutputSection>, n: nat, first: nat, base: nat,
                    libs: seq<Library>, l: nat, i: nat)
    requires ImportsLaidOut(arena, sections, n, first, base, libs) && SlotsSet(arena, base, libs, |libs|)
    requires l < |libs| && i < |libs[l].imports|
    ensures libs[l].imports[i].stub < |arena|
    ensures arena[libs[l].imports[i].stub].address == SlotIn(sections, first + l, i)
  {
    assert CarriesLibrary(sections[first + l], LoadAddress(base, libs[..l]), libs[l]);
    assert SlotsOf(arena, LoadAddress(base, libs[..l]), libs[l].imports, |libs[l].imports|);
  }

  /** An entry that means what an addend means comes to what it has to. */
  lemma {:induction false} MeaningComesTo(libs: seq<Library>, input: Input, arena: seq<Symbol>,
                                          sections: seq<OutputSection>, n: nat, first: nat, base: nat, m: Meaning,
                                          a: nat, value: nat)
    requires LibrariesOf(libs, input) && first + |libs| + 5 == |sections|
    requires ImportsLaidOut(arena, sections, n, first, base, libs) && SlotsSet(arena, base, libs, |libs|)
    requires Classify(AllImports(libs), KnownAddresses(input.Table()), a) == Some(m) && Denotes(arena, m, value)
    ensures ComesTo(input, sections, a, value)
  {
    AddendMeans(libs, input, a);
    if BelongsNowhere(input, a) {
      NowhereComesTo(input, arena, sections, m, a, value);
    } else {
      var l: nat, i: nat :| BelongsFirst(input, l, i, a) && i < |libs[l].imports| &&
                            m == Slot(libs[l].imports[i].stub);
      ImportComesTo(libs, input, arena, sections, n, first, base, l, i, a, value);
    }
  }

  lemma NowhereComesTo(input: Input, arena: seq<Symbol>, sections: seq<OutputSection>, m: Meaning, a: nat, value: nat)
    requires BelongsNowhere(input, a) && (m == Place(a) || m == Label(a)) && Denotes(arena, m, value)
    requires |sections| >= 5 + |input.defs|
    ensures ComesTo(input, sections, a, value)
  {
    forall l: nat, i: nat
      ensures !BelongsFirst(input, l, i, a)
    {
      assert !BelongsTo(input, l, i, a);
    }
  }

  lemma ImportComesTo(libs: seq<Library>, input: Input, arena: seq<Symbol>, sections: seq<OutputSection>, n: nat,
                      first: nat, base: nat, l: nat, i: nat, a: nat, value: nat)
    requires |libs| == |input.defs| && first + |libs| + 5 == |sections|
    requires ImportsLaidOut(arena, sections, n, first, base, libs) && SlotsSet(arena, base, libs, |libs|)
    requires BelongsFirst(input, l, i, a) && i < |libs[l].imports|
    requires Denotes(arena, Slot(libs[l].imports[i].stub), value)
    ensures ComesTo(input, sections, a, value)
  {
    assert BelongsTo(input, l, i, a);
    SlotComesTo(arena, sections, n, first, base, libs, l, i);
    OnlyComesTo(input, sections, l, i, a, value);
  }

  lemma OnlyComesTo(input: Input, sections: seq<OutputSection>, l: nat, i: nat, a: nat, value: nat)
    requires BelongsFirst(input, l, i, a) && |sections| >= 5 + |input.defs|
    requires value == SlotIn(sections, |sections| - 5 - |input.defs| + l, i)
    ensures ComesTo(input, sections, a, value)
  {
    assert BelongsTo(input, l, i, a);
    forall k: nat, j: nat | BelongsFirst(input, k, j, a)
      ensures k == l && j == i
    {
      OneIsFirst(input, l, i, k, j, a);
    }
  }

  // ---------- All of them ----------

  /** The finished object, as far as it matters here. */
  ghost predicate LaidFor(libs: seq<Library>, input: Input, arena: seq<Symbol>, sections: seq<OutputSection>, n: nat,
                       base: nat)
  {
    && LibrariesOf(libs, input) && 5 + |libs| <= |sections|
    && ImportsLaidOut(arena, sections, n, |sections| - 5 - |libs|, base, libs) && SlotsSet(arena, base, libs, |libs|)
  }

  /** One entry that was expected. */
  lemma EntryBecame(libs: seq<Library>, input: Input, arena: seq<Symbol>, symbols: seq<Ptr>,
                    sections: seq<OutputSection>, n: nat, base: nat, rela: Rela, e: Expect, offset: nat, kind: nat,
                    a: nat)
    requires LaidFor(libs, input, arena, sections, n, base)
    requires Classify(AllImports(libs), KnownAddresses(input.Table()), a) == Some(e.meaning)
    requires rela.offset == e.target && TypeKept(rela, e.kind) && e.target == offset
    requires e.kind == kind || (e.kind == 1 && kind == 22)
    requires |symbols| <= 0x100_0000 ==> Emits(arena, symbols, rela, e)
    ensures Became(input, arena, symbols, sections, rela, offset, kind, a)
  {
    if |symbols| <= 0x100_0000 {
      var value := EmittedValue(arena, symbols, rela, e);
      MeaningComesTo(libs, input, arena, sections, n, |sections| - 5 - |libs|, base, e.meaning, a, value);
    }
  }

  lemma EmittedValue(arena: seq<Symbol>, symbols: seq<Ptr>, rela: Rela, e: Expect) returns (value: nat)
    requires Emits(arena, symbols, rela, e)
    ensures rela.info / 256 < |symbols| && symbols[rela.info / 256] < |arena| && Denotes(arena, e.meaning, value)
    ensures value == (arena[symbols[rela.info / 256]].address + rela.addend) % 0x1_0000_0000
  {
    value := (arena[symbols[rela.info / 256]].address + rela.addend) % 0x1_0000_0000;
  }

  /** The entry for an expectation with this meaning; a loader relocation is expected as a plain one. */
  lemma ExpectedBecame(libs: seq<Library>, input: Input, arena: seq<Symbol>, symbols: seq<Ptr>,
                       sections: seq<OutputSection>, n: nat, base: nat, log: seq<(nat, Rela)>, es: seq<Expect>, k: nat,
                       offset: nat, kind: nat, a: nat)
    requires LaidFor(libs, input, arena, sections, n, base)
    requires AllTyped(log, es) && (|symbols| <= 0x100_0000 ==> AllEmitted(arena, symbols, log, es))
    requires var m := Classify(AllImports(libs), KnownAddresses(input.Table()), a);
             IsAt(es, k, offset, kind, m) || (kind == 22 && IsAt(es, k, offset, 1, m))
    ensures k < |log| && Became(input, arena, symbols, sections, log[k].1, offset, kind, a)
  {
    EntryBecame(libs, input, arena, symbols, sections, n, base, log[k].1, es[k], offset, kind, a);
  }

  /** The entries as they were expected are those that the input asks for. */
  lemma EntriesBecame(libs: seq<Library>, input: Input, arena: seq<Symbol>, symbols: seq<Ptr>,
                      sections: seq<OutputSection>, n: nat, base: nat, log: seq<(nat, Rela)>, es: seq<Expect>)
    requires LaidFor(libs, input, arena, sections, n, base) && es == AllExpected(AllImports(libs), input)
    requires DynReadable(AllImports(libs), KnownAddresses(input.Table()), input.dyn) && NoneAstray(es)
    requires AllTyped(log, es) && (|symbols| <= 0x100_0000 ==> AllEmitted(arena, symbols, log, es))
    ensures AllBecame(input, arena, symbols, sections, log)
  {
    var imports, known := AllImports(libs), KnownAddresses(input.Table());
    assert input.relas[..|input.relas|] == input.relas && input.dyn[..|input.dyn|] == input.dyn;
    ExpectedAt(libs, input, |input.relas|, 0, Expected(imports, known, input.relas));
    ExpectedDynAt(libs, input, |input.dyn|, 0, ExpectedDyn(imports, known, input.dyn));
    forall i | 0 <= i < |input.relas| && Carried(input, input.relas[i].addend)
      ensures StaticBecame(input, arena, symbols, sections, log, i)
    {
      StaticBecomes(libs, input, arena, symbols, sections, n, base, log, es, i);
    }
    forall i | 0 <= i < |input.dyn| && CarriedDyn(input.dyn[i])
      ensures DynBecame(input, arena, symbols, sections, log, i)
    {
      DynExpectedAt(libs, input, es, i);
      DynBecomes(libs, input, arena, symbols, sections, n, base, log, es, i);
    }
  }

  lemma {:induction false} StaticBecomes(libs: seq<Library>, input: Input, arena: seq<Symbol>, symbols: seq<Ptr>,
                                         sections: seq<OutputSection>, n: nat, base: nat, log: seq<(nat, Rela)>,
                                         es: seq<Expect>, i: nat)
    requires LaidFor(libs, input, arena, sections, n, base) && es == AllExpected(AllImports(libs), input)
    requires AllTyped(log, es) && (|symbols| <= 0x100_0000 ==> AllEmitted(arena, symbols, log, es))
    requires i < |input.relas| && Carried(input, input.relas[i].addend)
    ensures StaticBecame(input, arena, symbols, sections, log, i)
  {
    assert input.relas[..|input.relas|] == input.relas;
    var fixed := Expected(AllImports(libs), KnownAddresses(input.Table()), input.relas);
    ExpectedAt(libs, input, |input.relas|, i, fixed);
    var k, r := CarriedBefore(input, i), input.relas[i];
    assert es[k] == fixed[k];
    ExpectedBecame(libs, input, arena, symbols, sections, n, base, log, es, k, r.offset, r.info % 256, r.addend);
  }

  lemma DynExpectedAt(libs: seq<Library>, input: Input, es: seq<Expect>, i: nat)
    requires LibrariesOf(libs, input) && es == AllExpected(AllImports(libs), input) && NoneAstray(es)
    requires DynReadable(AllImports(libs), KnownAddresses(input.Table()), input.dyn)
    requires i < |input.dyn| && CarriedDyn(input.dyn[i])
    ensures IsAt(es, CarriedBefore(input, |input.relas|) + CarriedDynBefore(input, i), input.dyn[i].offset,
                 R_PPC_ADDR32, Classify(AllImports(libs), KnownAddresses(input.Table()), input.dyn[i].addend))
  {
    var imports, known := AllImports(libs), KnownAddresses(input.Table());
    var fixed, dyn := Expected(imports, known, input.relas), ExpectedDyn(imports, known, input.dyn);
    assert input.relas[..|input.relas|] == input.relas && input.dyn[..|input.dyn|] == input.dyn;
    ExpectedAt(libs, input, |input.relas|, 0, fixed);
    ExpectedDynAt(libs, input, |input.dyn|, i, dyn);
    var k := |fixed| + CarriedDynBefore(input, i);
    assert es[k] == dyn[CarriedDynBefore(input, i)];
    assert !Astray(es[k]);
  }

  lemma {:induction false} DynBecomes(libs: seq<Library>, input: Input, arena: seq<Symbol>, symbols: seq<Ptr>,
                                      sections: seq<OutputSection>, n: nat, base: nat, log: seq<(nat, Rela)>,
                                      es: seq<Expect>, i: nat)
    requires LaidFor(libs, input, arena, sections, n, base) && i < |input.dyn|
    requires AllTyped(log, es) && (|symbols| <= 0x100_0000 ==> AllEmitted(arena, symbols, log, es))
    requires IsAt(es, CarriedBefore(input, |input.relas|) + CarriedDynBefore(input, i), input.dyn[i].offset,
                  R_PPC_ADDR32, Classify(AllImports(libs), KnownAddresses(input.Table()), input.dyn[i].addend))
    ensures DynBecame(input, arena, symbols, sections, log, i)
  {
    var k, r := CarriedBefore(input, |input.relas|) + CarriedDynBefore(input, i), input.dyn[i];
    ExpectedBecame(libs, input, arena, symbols, sections, n, base, log, es, k, r.offset, 22, r.addend);
  }
}
