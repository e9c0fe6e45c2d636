/** Reading relocations: each addend becomes an import stub, an exact symbol, or a section base plus an offset. */
module ElfRelocs {
  import opened Wrappers
  import opened ElfSymbols
  import opened ElfRead

  /**
   * What an input relocation refers to: the slot of an import, a plain address, or the address of a label,
   * whose symbol pruning frees. `Nothing` is a loader relocation with a symbol: its pointer is left null.
   */
  datatype Meaning = Slot(stub: Ptr) | Place(address: nat) | Label(address: nat) | Nothing

  /** The addresses a search over the symbols can hit, and those of them where it answers a label. */
  datatype Addresses = Addresses(listed: set<nat>, labels: set<nat>)

  /** A relocation the output has to carry. */
  datatype Expect = Expect(target: nat, kind: nat, meaning: Meaning)

  /** It will go through a pointer to a destroyed symbol, or a null one. */
  predicate Astray(e: Expect) {
    e.meaning.Label? || e.meaning.Nothing?
  }

  predicate Hits(imp: RplImport, address: nat) {
    imp.stubAddr == address || imp.trampAddr == address
  }

  /** The first import whose stub or trampoline is at the address. */
  function FirstImport(imports: seq<RplImport>, address: nat): (r: Option<RplImport>) {
    if imports == [] then None
    else if Hits(imports[0], address) then Some(imports[0])
    else FirstImport(imports[1..], address)
  }

  lemma {:induction false} FirstImportConcat(a: seq<RplImport>, b: seq<RplImport>, address: nat)
    ensures FirstImport(a + b, address) ==
            if FirstImport(a, address).Some? then FirstImport(a, address) else FirstImport(b, address)
  {
    if a == [] {
      assert a + b == b;
    } else {
      FirstImportConcat(a[1..], b, address);
      assert (a + b)[1..] == a[1..] + b;
    }
  }

  lemma {:induction false} FirstImportIsListed(imports: seq<RplImport>, address: nat)
    ensures match FirstImport(imports, address)
            case Some(imp) => imp in imports && Hits(imp, address)
            case None => forall imp :: imp in imports ==> !Hits(imp, address)
  {
    if imports != [] {
      FirstImportIsListed(imports[1..], address);
      assert forall imp :: imp in imports ==> imp == imports[0] || imp in imports[1..];
    }
  }

  /** Nothing in front of position `k` has this address, neither that of its stub nor that of its trampoline. */
  predicate NoneBefore(imports: seq<RplImport>, address: nat, k: nat) {
    forall j :: 0 <= j < k && j < |imports| ==> imports[j].stubAddr != address && imports[j].trampAddr != address
  }

  /** Position `k` is the first with its stub or its trampoline at the address. */
  predicate FirstAt(imports: seq<RplImport>, address: nat, k: nat) {
    && k < |imports| && (imports[k].stubAddr == address || imports[k].trampAddr == address)
    && NoneBefore(imports, address, k)
  }

  /** What the search answers is the first import with its stub or its trampoline at the address. */
  lemma {:induction false} FirstImportIs(imports: seq<RplImport>, address: nat)
    ensures match FirstImport(imports, address)
            case Some(imp) => exists k: nat :: FirstAt(imports, address, k) && imports[k] == imp
            case None => NoneBefore(imports, address, |imports|)
  {
    if imports == [] {
    } else if Hits(imports[0], address) {
      assert FirstAt(imports, address, 0);
    } else {
      var rest, r := imports[1..], FirstImport(imports, address);
      FirstImportIs(rest, address);
      if r.Some? {
        var k: nat :| FirstAt(rest, address, k) && rest[k] == r.value;
        NoneBeforeStep(imports, address, k);
        assert FirstAt(imports, address, k + 1);
      } else {
        NoneBeforeStep(imports, address, |rest|);
      }
    }
  }

  lemma NoneBeforeStep(imports: seq<RplImport>, address: nat, k: nat)
    requires imports != [] && NoneBefore(imports[1..], address, k)
    requires imports[0].stubAddr != address && imports[0].trampAddr != address
    ensures NoneBefore(imports, address, k + 1)
  {
    assert forall j :: 0 < j < |imports| ==> imports[j] == imports[1..][j - 1];
  }

  /** The nested search over libraries answers the first hit of the imports in library order. */
  method FindImport(libs: seq<Library>, address: nat) returns (r: Option<RplImport>)
    ensures r == FirstImport(AllImports(libs), address)
    ensures r.None? ==> NoneBefore(AllImports(libs), address, |AllImports(libs)|)
    ensures r.Some? ==> exists k: nat :: FirstAt(AllImports(libs), address, k) && AllImports(libs)[k] == r.value
  {
    for l := 0 to |libs|
      invariant FirstImport(AllImports(libs[..l]), address) == None
    {
      var imports := libs[l].imports;
      assert libs[..l + 1][..l] == libs[..l];
      FirstImportConcat(AllImports(libs[..l]), imports, address);
      for i := 0 to |imports|
        invariant FirstImport(imports[..i], address) == None
      {
        assert imports == imports[..i] + imports[i..];
        FirstImportConcat(imports[..i], imports[i..], address);
        if imports[i].stubAddr == address || imports[i].trampAddr == address {
          FirstImportPrefix(libs, l + 1, address);
          FirstImportIs(AllImports(libs), address);
          return Some(imports[i]);
        }
        assert imports[..i + 1] == imports[..i] + [imports[i]];
        FirstImportConcat(imports[..i], [imports[i]], address);
      }
      assert imports[..|imports|] == imports;
    }
    assert libs[..|libs|] == libs;
    FirstImportIs(AllImports(libs), address);
    return None;
  }

  lemma {:induction false} FirstImportPrefix(libs: seq<Library>, l: nat, address: nat)
    requires l <= |libs| && FirstImport(AllImports(libs[..l]), address).Some?
    ensures FirstImport(AllImports(libs), address) == FirstImport(AllImports(libs[..l]), address)
    decreases |libs|
  {
    if l == |libs| {
      assert libs[..l] == libs;
    } else {
      var init := libs[..|libs| - 1];
      assert init[..l] == libs[..l];
      FirstImportPrefix(init, l, address);
      FirstImportConcat(AllImports(init), libs[|libs| - 1].imports, address);
    }
  }

  /** What the addend of an input relocation refers to; `None` is the branch that only patches the image. */
  function Classify(imports: seq<RplImport>, known: Addresses, addend: nat): (m: Option<Meaning>) {
    var imp := FirstImport(imports, addend);
    if imp.Some? then Some(Slot(imp.value.stub))
    else if addend in known.labels then Some(Label(addend))
    else if addend in known.listed || CODE_ADDRESS <= addend < WIIU_LOAD_ADDRESS then Some(Place(addend))
    else None
  }

  /**
   * An addend at the stub or the trampoline of some import means the slot of the first such import, and an addend at
   * none means no slot.
   */
  lemma SlotOfFirst(imports: seq<RplImport>, known: Addresses, addend: nat, k: nat)
    ensures FirstAt(imports, addend, k) ==> Classify(imports, known, addend) == Some(Slot(imports[k].stub))
    ensures NoneBefore(imports, addend, |imports|) ==>
              Classify(imports, known, addend).None? || !Classify(imports, known, addend).value.Slot?
  {
    FirstImportIs(imports, addend);
  }

  /** The relocations to carry over, in table order. */
  function Expected(imports: seq<RplImport>, known: Addresses, relas: seq<InRela>): (es: seq<Expect>) {
    if relas == [] then []
    else
      var last := relas[|relas| - 1];
      Expected(imports, known, relas[..|relas| - 1]) +
      match Classify(imports, known, last.addend)
      case Some(m) => [Expect(last.offset, last.info % 256, m)]
      case None => []
  }

  /** A loader relocation that is not padding is kept when its target is in the text or data range. */
  predicate KeepsDyn(rela: DynRela) {
    rela.kind != R_PPC_NONE && CODE_ADDRESS <= rela.offset < WIIU_LOAD_ADDRESS
  }

  /** What a loader relocation refers to: only against the null symbol is its addend looked up. */
  function ClassifyDyn(imports: seq<RplImport>, known: Addresses, rela: DynRela): (m: Option<Meaning>) {
    if rela.index == 0 then Classify(imports, known, rela.addend) else Some(Nothing)
  }

  /** The loader relocations to carry over, all as plain 32-bit address relocations. */
  function ExpectedDyn(imports: seq<RplImport>, known: Addresses, relas: seq<DynRela>): (es: seq<Expect>) {
    if relas == [] then []
    else
      var last := relas[|relas| - 1];
      ExpectedDyn(imports, known, relas[..|relas| - 1]) +
      match ClassifyDyn(imports, known, last)
      case Some(m) => if KeepsDyn(last) then [Expect(last.offset, R_PPC_ADDR32, m)] else []
      case None => []
  }

  /** A search for the address of no import answers a prunable symbol exactly at the labels. */
  ghost predicate LabelsAre(arena: seq<Symbol>, symbols: seq<Ptr>, imports: seq<RplImport>, labels: set<nat>)
    requires Allocated(arena, symbols)
  {
    forall a, i: nat :: FirstImport(imports, a).None? && Finds(arena, symbols, a, i) ==>
      (Prunable(arena[symbols[i]]) <==> a in labels)
  }

  /** `known` are the addresses of the listed symbols, with the labels among them. */
  ghost predicate KnownIs(arena: seq<Symbol>, symbols: seq<Ptr>, imports: seq<RplImport>, known: Addresses)
    requires Allocated(arena, symbols)
  {
    && (forall a :: Known(arena, symbols, a) <==> a in known.listed)
    && known.labels <= known.listed && LabelsAre(arena, symbols, imports, known.labels)
  }

  /** The object after reading symbols and imports: the list is the whole arena, the stubs last. */
  ghost predicate SymbolsRead(arena: seq<Symbol>, symbols: seq<Ptr>, imports: seq<RplImport>) {
    && Reserved(arena, symbols)
    && |symbols| == |arena| >= |imports| + 4
    && (forall i :: 0 <= i < |symbols| ==> symbols[i] == i)
    && (forall k :: 0 <= k < |imports| ==> imports[k].stub == |arena| - |imports| + k)
    && (forall p :: |arena| - |imports| <= p < |arena| ==> IsStub(arena[p]))
  }

  /** `r` stands for `e` while stub addresses are open. */
  ghost predicate StandsFor(arena: seq<Symbol>, stubs: nat, r: Relocation, e: Expect) {
    r.target == e.target && r.kind == e.kind && Refers(arena, stubs, r.symbol, r.addend, e.meaning)
  }

  /**
   * An import goes by its stub, and a label by its own symbol; a plain address is that of a symbol which is
   * neither a stub nor prunable, plus an addend.
   */
  ghost predicate Refers(arena: seq<Symbol>, stubs: nat, symbol: Option<Ptr>, addend: nat, m: Meaning) {
    match m
    case Slot(stub) => symbol == Some(stub) && stubs <= stub < |arena| && addend == 0
    case Place(a) => GoesBy(arena, stubs, symbol, addend, a) && !Prunable(arena[symbol.value])
    case Label(a) => GoesBy(arena, stubs, symbol, addend, a) && Prunable(arena[symbol.value])
    case Nothing => symbol.None? && addend == 0
  }

  /** The symbol, which is neither the null symbol nor a stub, and the addend make the address. */
  ghost predicate GoesBy(arena: seq<Symbol>, stubs: nat, symbol: Option<Ptr>, addend: nat, a: nat) {
    && symbol.Some? && 0 < symbol.value < stubs && symbol.value < |arena|
    && arena[symbol.value].address + addend == a
  }

  ghost predicate AllStandFor(arena: seq<Symbol>, stubs: nat, rs: seq<Relocation>, es: seq<Expect>) {
    |rs| == |es| && forall k :: 0 <= k < |rs| ==> StandsFor(arena, stubs, rs[k], es[k])
  }

  /** Finds the symbol and remaining addend a relocation will carry. */
  method ResolveAddend(file: ElfFile, addend: nat, ghost known: Addresses) returns (r: Option<(Ptr, nat)>)
    requires SymbolsRead(file.arena, file.symbols, AllImports(file.libs))
    requires KnownIs(file.arena, file.symbols, AllImports(file.libs), known)
    ensures var m := Classify(AllImports(file.libs), known, addend);
            && (r.Some? <==> m.Some?)
            && (r.Some? ==> Refers(file.arena, |file.arena| - |AllImports(file.libs)|, Some(r.value.0), r.value.1,
                                   m.value))
  {
    ghost var imports := AllImports(file.libs);
    var imp := FindImport(file.libs, addend);
    FirstImportIsListed(imports, addend);
    if imp.Some? {
      return Some((imp.value.stub, 0));
    }
    var symbol := FindSymbol(file.arena, file.symbols, addend);
    if symbol.Some? {
      SearchSkipsStubs(file.arena, file.symbols, imports, addend, symbol.value);
      return Some((symbol.value, 0));
    }
    if DATA_ADDRESS <= addend < WIIU_LOAD_ADDRESS {
      var data := FindSymbol(file.arena, file.symbols, DATA_ADDRESS);
      BasesAreKnown(file.arena, file.symbols);
      SearchSkipsStubs(file.arena, file.symbols, imports, DATA_ADDRESS, data.value);
      return Some((data.value, addend - DATA_ADDRESS));
    }
    if CODE_ADDRESS <= addend < DATA_ADDRESS {
      var text := FindSymbol(file.arena, file.symbols, CODE_ADDRESS);
      BasesAreKnown(file.arena, file.symbols);
      SearchSkipsStubs(file.arena, file.symbols, imports, CODE_ADDRESS, text.value);
      return Some((text.value, addend - CODE_ADDRESS));
    }
    return None;
  }

  lemma BasesAreKnown(arena: seq<Symbol>, symbols: seq<Ptr>)
    requires Reserved(arena, symbols)
    ensures Known(arena, symbols, CODE_ADDRESS) && Known(arena, symbols, DATA_ADDRESS)
  {
    assert arena[symbols[1]].address == CODE_ADDRESS && arena[symbols[2]].address == DATA_ADDRESS;
  }

  /** Whatever an address search answers is neither the null symbol nor a stub; the bases answer 1 and 2. */
  lemma SearchSkipsStubs(arena: seq<Symbol>, symbols: seq<Ptr>, imports: seq<RplImport>, address: nat, p: Ptr)
    requires SymbolsRead(arena, symbols, imports)
    requires exists i: nat :: Finds(arena, symbols, address, i) && symbols[i] == p
    ensures 0 < p < |arena| - |imports| && arena[p].address == address
    ensures address == CODE_ADDRESS ==> p == 1
    ensures address == DATA_ADDRESS ==> p == 2
  {
    var i: nat :| Finds(arena, symbols, address, i) && symbols[i] == p;
    ReservedLookups(arena, symbols, address, i);
  }

  /** One more static relocation, dropped. */
  lemma ExpectedDrop(imports: seq<RplImport>, known: Addresses, relas: seq<InRela>, i: nat,
                     arena: seq<Symbol>, stubs: nat, rs: seq<Relocation>, es: seq<Expect>)
    requires i < |relas| && AllStandFor(arena, stubs, rs, es + Expected(imports, known, relas[..i]))
    requires Classify(imports, known, relas[i].addend).None?
    ensures AllStandFor(arena, stubs, rs, es + Expected(imports, known, relas[..i + 1]))
  {
    assert relas[..i + 1][..i] == relas[..i];
  }

  /** One more static relocation, kept. */
  lemma ExpectedKeep(imports: seq<RplImport>, known: Addresses, relas: seq<InRela>, i: nat,
                     arena: seq<Symbol>, stubs: nat, rs: seq<Relocation>, es: seq<Expect>, r: Relocation)
    requires i < |relas| && AllStandFor(arena, stubs, rs, es + Expected(imports, known, relas[..i]))
    requires Classify(imports, known, relas[i].addend).Some?
    requires StandsFor(arena, stubs, r, Expect(relas[i].offset, relas[i].info % 256,
                                               Classify(imports, known, relas[i].addend).value))
    ensures AllStandFor(arena, stubs, rs + [r], es + Expected(imports, known, relas[..i + 1]))
  {
    assert relas[..i + 1][..i] == relas[..i];
    var before, after := Expected(imports, known, relas[..i]), Expected(imports, known, relas[..i + 1]);
    assert es + after == es + before + after[|before|..];
  }

  /** One more loader relocation, dropped. */
  lemma ExpectedDynDrop(imports: seq<RplImport>, known: Addresses, relas: seq<DynRela>, i: nat,
                        arena: seq<Symbol>, stubs: nat, rs: seq<Relocation>, es: seq<Expect>)
    requires i < |relas| && AllStandFor(arena, stubs, rs, es + ExpectedDyn(imports, known, relas[..i]))
    requires !KeepsDyn(relas[i])
    ensures AllStandFor(arena, stubs, rs, es + ExpectedDyn(imports, known, relas[..i + 1]))
  {
    assert relas[..i + 1][..i] == relas[..i];
  }

  /** One more loader relocation, kept. */
  lemma ExpectedDynKeep(imports: seq<RplImport>, known: Addresses, relas: seq<DynRela>, i: nat,
                        arena: seq<Symbol>, stubs: nat, rs: seq<Relocation>, es: seq<Expect>, r: Relocation)
    requires i < |relas| && AllStandFor(arena, stubs, rs, es + ExpectedDyn(imports, known, relas[..i]))
    requires ClassifyDyn(imports, known, relas[i]).Some? && KeepsDyn(relas[i])
    requires StandsFor(arena, stubs, r, Expect(relas[i].offset, R_PPC_ADDR32,
                                               ClassifyDyn(imports, known, relas[i]).value))
    ensures AllStandFor(arena, stubs, rs + [r], es + ExpectedDyn(imports, known, relas[..i + 1]))
  {
    assert relas[..i + 1][..i] == relas[..i];
    var before, after := ExpectedDyn(imports, known, relas[..i]), ExpectedDyn(imports, known, relas[..i + 1]);
    assert es + after == es + before + after[|before|..];
  }

  /** A text-section symbol may only be referred to from the text range. */
  predicate Misplaced(rela: InRela) {
    rela.symKind == STT_SECTION && rela.symValue == CODE_ADDRESS && !(CODE_ADDRESS <= rela.offset < DATA_ADDRESS)
  }

  /** Its addend refers to nothing, and no section has data at its target: the patch goes through a null pointer. */
  predicate PatchesNull(imports: seq<RplImport>, known: Addresses, mapped: set<nat>, rela: InRela) {
    Classify(imports, known, rela.addend).None? && rela.offset !in mapped
  }

  /** No static relocation is misplaced or patches through a null pointer. */
  ghost predicate NoneOffends(imports: seq<RplImport>, known: Addresses, mapped: set<nat>, relas: seq<InRela>) {
    forall i :: 0 <= i < |relas| ==> !Misplaced(relas[i]) && !PatchesNull(imports, known, mapped, relas[i])
  }

  /** One is misplaced, and none before it does either. */
  ghost predicate MisplacedFirst(imports: seq<RplImport>, known: Addresses, mapped: set<nat>, relas: seq<InRela>) {
    exists i: nat :: i < |relas| && Misplaced(relas[i]) && NoneOffends(imports, known, mapped, relas[..i])
  }

  lemma NoneOffendsStep(imports: seq<RplImport>, known: Addresses, mapped: set<nat>, relas: seq<InRela>, i: nat)
    requires i < |relas| && NoneOffends(imports, known, mapped, relas[..i])
    ensures Misplaced(relas[i]) ==> MisplacedFirst(imports, known, mapped, relas)
    ensures Misplaced(relas[i]) || PatchesNull(imports, known, mapped, relas[i]) ==>
              !NoneOffends(imports, known, mapped, relas)
    ensures !Misplaced(relas[i]) && PatchesNull(imports, known, mapped, relas[i]) ==>
              !MisplacedFirst(imports, known, mapped, relas)
    ensures !Misplaced(relas[i]) && !PatchesNull(imports, known, mapped, relas[i]) ==>
              NoneOffends(imports, known, mapped, relas[..i + 1])
  {
    assert forall j :: 0 <= j < i ==> relas[..i][j] == relas[j];
    if MisplacedFirst(imports, known, mapped, relas) {
      var k: nat :| k < |relas| && Misplaced(relas[k]) && NoneOffends(imports, known, mapped, relas[..k]);
      assert k > i ==> relas[..k][i] == relas[i];
    }
    assert relas[..i + 1] == relas[..i] + [relas[i]];
  }

  lemma NoneOffendsEnd(imports: seq<RplImport>, known: Addresses, mapped: set<nat>, relas: seq<InRela>)
    requires NoneOffends(imports, known, mapped, relas)
    ensures !MisplacedFirst(imports, known, mapped, relas)
  {
  }

  /**
   * Reads the static relocations: the kept ones follow the earlier ones, in table order; `mapped` are the addresses
   * that some section has data for.
   */
  method ReadRelocations(file: ElfFile, relas: seq<InRela>, mapped: set<nat>, ghost es: seq<Expect>,
                         ghost known: Addresses)
    returns (outcome: Outcome)
    requires SymbolsRead(file.arena, file.symbols, AllImports(file.libs))
    requires KnownIs(file.arena, file.symbols, AllImports(file.libs), known)
    requires AllStandFor(file.arena, |file.arena| - |AllImports(file.libs)|, file.relocations, es)
    modifies file`relocations
    ensures outcome.Done? <==> NoneOffends(AllImports(file.libs), known, mapped, relas)
    ensures outcome.Failed? <==> MisplacedFirst(AllImports(file.libs), known, mapped, relas)
    ensures outcome.Done? ==> AllStandFor(file.arena, |file.arena| - |AllImports(file.libs)|, file.relocations,
                               es + Expected(AllImports(file.libs), known, relas))
  {
    ghost var imports, stubs := AllImports(file.libs), |file.arena| - |AllImports(file.libs)|;
    for i := 0 to |relas|
      invariant NoneOffends(imports, known, mapped, relas[..i])
      invariant AllStandFor(file.arena, stubs, file.relocations, es + Expected(imports, known, relas[..i]))
    {
      var rela := relas[i];
      NoneOffendsStep(imports, known, mapped, relas, i);
      if rela.symKind == STT_SECTION && rela.symValue == CODE_ADDRESS {
        if rela.offset < CODE_ADDRESS || rela.offset >= DATA_ADDRESS {
          return Failed;
        }
      }
      var resolved := ResolveAddend(file, rela.addend, known);
      if resolved.None? {
        if rela.offset !in mapped {
          return BadPointer;
        }
        ExpectedDrop(imports, known, relas, i, file.arena, stubs, file.relocations, es);
        continue;
      }
      var relocation := Relocation(rela.offset, rela.info % 256, Some(resolved.value.0), resolved.value.1);
      ExpectedKeep(imports, known, relas, i, file.arena, stubs, file.relocations, es, relocation);
      file.relocations := file.relocations + [relocation];
    }
    assert relas[..|relas|] == relas;
    NoneOffendsEnd(imports, known, mapped, relas);
    return Done;
  }

  /** Every loader relocation that is not padding is a RELATIVE one that refers to something, or has a symbol. */
  predicate DynAccepted(imports: seq<RplImport>, known: Addresses, rela: DynRela) {
    rela.kind == R_PPC_NONE ||
    (rela.kind == R_PPC_RELATIVE && ClassifyDyn(imports, known, rela).Some?)
  }

  /** Reads the loader relocations, dropping padding and targets outside the text and data ranges. */
  method ReadDynRelocations(file: ElfFile, relas: seq<DynRela>, ghost es: seq<Expect>, ghost known: Addresses)
    returns (ok: bool)
    requires SymbolsRead(file.arena, file.symbols, AllImports(file.libs))
    requires KnownIs(file.arena, file.symbols, AllImports(file.libs), known)
    requires AllStandFor(file.arena, |file.arena| - |AllImports(file.libs)|, file.relocations, es)
    modifies file`relocations
    ensures ok <==> forall i :: 0 <= i < |relas| ==>
      DynAccepted(AllImports(file.libs), known, relas[i])
    ensures ok ==> AllStandFor(file.arena, |file.arena| - |AllImports(file.libs)|, file.relocations,
                               es + ExpectedDyn(AllImports(file.libs), known, relas))
  {
    ghost var imports, stubs := AllImports(file.libs), |file.arena| - |AllImports(file.libs)|;
    for i := 0 to |relas|
      invariant forall j :: 0 <= j < i ==> DynAccepted(imports, known, relas[j])
      invariant AllStandFor(file.arena, stubs, file.relocations, es + ExpectedDyn(imports, known, relas[..i]))
    {
      var rela := relas[i];
      if rela.kind == R_PPC_NONE {
        ExpectedDynDrop(imports, known, relas, i, file.arena, stubs, file.relocations, es);
        continue;
      }
      var relocation := Relocation(rela.offset, R_PPC_ADDR32, None, 0);
      if rela.index == 0 {
        var resolved := ResolveAddend(file, rela.addend, known);
        if resolved.None? {
          return false;
        }
        relocation := relocation.(symbol := Some(resolved.value.0), addend := resolved.value.1);
      }
      if rela.kind != R_PPC_RELATIVE {
        return false;
      }
      if relocation.target >= CODE_ADDRESS && relocation.target < WIIU_LOAD_ADDRESS {
        ExpectedDynKeep(imports, known, relas, i, file.arena, stubs, file.relocations, es, relocation);
        file.relocations := file.relocations + [relocation];
      } else {
        ExpectedDynDrop(imports, known, relas, i, file.arena, stubs, file.relocations, es);
      }
    }
    assert relas[..|relas|] == relas;
    return true;
  }
}
