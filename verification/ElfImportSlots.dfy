/** Laying out the import sections and giving every import symbol its slot address. */
module ElfImportSlots {
  import opened Words
  import opened ElfSymbols
  import opened ElfRead
  import opened ElfSections
  import opened ElfRelaSections

  /** Room for the 8-byte header and whichever is longer, the library name or one 8-byte slot per import. */
  function SectionSize(lib: Library): (r: nat)
    ensures r % 8 == 0 && r >= 8 + |lib.name| && r >= 8 + 8 * |lib.imports|
    ensures r < 8 + |lib.name| + 8 || r == 8 + 8 * |lib.imports|
  {
    var nameSize, stubSize := AlignUp(8 + |lib.name|, 8), 8 + 8 * |lib.imports|;
    if nameSize < stubSize then stubSize else nameSize
  }

  /** The load address after a library's section. */
  function LoadAfter(load: nat, lib: Library): nat {
    Wrap32(AlignUp(Wrap32(load + SectionSize(lib)), 4))
  }

  /** The load address after the sections of all the libraries, hence that of the next one. */
  function LoadAddress(base: nat, libs: seq<Library>): nat {
    if libs == [] then base else LoadAfter(LoadAddress(base, libs[..|libs| - 1]), libs[|libs| - 1])
  }

  function SlotAddress(load: nat, i: nat): nat {
    Wrap32(load + 8 + 8 * i)
  }

  /** A multiple of 4 wraps to one, and so never to the greatest word. */
  lemma WrapsToFourth(x: nat)
    requires x % 4 == 0
    ensures Wrap32(x) % 4 == 0 && Wrap32(x) < UNSET
  {
    var fourths, turns := x / 4, x / 0x1_0000_0000;
    assert Wrap32(x) == 4 * (fourths - 0x4000_0000 * turns);
    FourTimes(fourths - 0x4000_0000 * turns);
  }

  lemma FourTimes(k: int)
    ensures (4 * k) % 4 == 0
  {
  }

  lemma LoadAfterAligned(load: nat, lib: Library)
    ensures LoadAfter(load, lib) % 4 == 0 && LoadAfter(load, lib) < UNSET
  {
    WrapsToFourth(AlignUp(Wrap32(load + SectionSize(lib)), 4));
  }

  /** Every load address is a multiple of 4. */
  lemma LoadAligned(base: nat, libs: seq<Library>)
    requires base % 4 == 0
    ensures LoadAddress(base, libs) % 4 == 0 && (base < TWO_TO_32 ==> LoadAddress(base, libs) < UNSET)
  {
    if libs == [] {
      assert base < TWO_TO_32 ==> base != UNSET;
    } else {
      LoadAfterAligned(LoadAddress(base, libs[..|libs| - 1]), libs[|libs| - 1]);
    }
  }

  lemma SlotBelow(load: nat, i: nat)
    requires load % 4 == 0
    ensures SlotAddress(load, i) < UNSET
  {
    var k := load / 4;
    assert load + 8 + 8 * i == 4 * (k + 2 + 2 * i);
    FourTimes(k + 2 + 2 * i);
    WrapsToFourth(load + 8 + 8 * i);
  }

  /** Section `first + l` belongs to library `l`. */
  ghost predicate SectionsAdded(sections: seq<OutputSection>, first: nat, base: nat, libs: seq<Library>, done: nat) {
    done <= |libs| && first + done <= |sections| &&
    forall l :: 0 <= l < done ==> IsImportSection(sections[first + l], LoadAddress(base, libs[..l]), libs[l])
  }

  predicate IsImportSection(s: OutputSection, load: nat, lib: Library) {
    CarriesLibrary(s, load, lib) && s.dataSize == s.size && s.relas == [] && s.offset == UNSET
  }

  /** What later stages keep of it. */
  predicate CarriesLibrary(s: OutputSection, load: nat, lib: Library) {
    s.name == ".fimport_" + lib.name && s.kind == SHT_RPL_IMPORTS && s.addr == load && s.size == SectionSize(lib)
  }

  /** The first `count` imports of a library have their slots. */
  ghost predicate SlotsOf(arena: seq<Symbol>, load: nat, imports: seq<RplImport>, count: nat) {
    forall i :: 0 <= i < count <= |imports| ==>
      imports[i].stub < |arena| && arena[imports[i].stub].address == SlotAddress(load, i)
  }

  ghost predicate SlotsSet(arena: seq<Symbol>, base: nat, libs: seq<Library>, done: nat) {
    forall l :: 0 <= l < done <= |libs| ==>
      SlotsOf(arena, LoadAddress(base, libs[..l]), libs[l].imports, |libs[l].imports|)
  }

  /** Stubs are numbered consecutively from `stubs` on, in import order. */
  ghost predicate Numbered(imports: seq<RplImport>, stubs: nat) {
    forall k :: 0 <= k < |imports| ==> imports[k].stub == stubs + k
  }

  /** Only the addresses of stubs, which are `stubs` up to `n`, differ. */
  ghost predicate OnlySlots(later: seq<Symbol>, arena: seq<Symbol>, stubs: nat, n: nat) {
    && |arena| <= |later|
    && forall p :: 0 <= p < |arena| ==>
         if stubs <= p < n then
           later[p] == arena[p].(address := later[p].address) &&
           (arena[p].address < UNSET ==> later[p].address < UNSET)
         else later[p] == arena[p]
  }

  /** The stubs of earlier libraries come before those of later ones. */
  lemma {:induction false} StubRange(libs: seq<Library>, l: nat, stubs: nat)
    requires l < |libs| && Numbered(AllImports(libs), stubs)
    ensures |AllImports(libs[..l])| + |libs[l].imports| <= |AllImports(libs)|
    ensures Numbered(libs[l].imports, stubs + |AllImports(libs[..l])|)
    decreases |libs|
  {
    var init, last := libs[..|libs| - 1], libs[|libs| - 1].imports;
    var all := AllImports(libs);
    assert all == AllImports(init) + last;
    if l < |init| {
      assert forall k :: 0 <= k < |AllImports(init)| ==> all[k] == AllImports(init)[k];
      StubRange(init, l, stubs);
      assert init[..l] == libs[..l];
    } else {
      assert forall k :: 0 <= k < |last| ==> last[k] == all[|AllImports(init)| + k];
    }
  }

  /** Setting the slots of library `l` leaves those of the earlier ones alone. */
  lemma SlotsStay(later: seq<Symbol>, arena: seq<Symbol>, base: nat, libs: seq<Library>, l: nat, stubs: nat)
    requires l < |libs| && Numbered(AllImports(libs), stubs)
    requires SlotsSet(arena, base, libs, l)
    requires |arena| <= |later|
    requires forall p :: 0 <= p < stubs + |AllImports(libs[..l])| && p < |arena| ==>
      later[p].address == arena[p].address
    requires SlotsOf(later, LoadAddress(base, libs[..l]), libs[l].imports, |libs[l].imports|)
    ensures SlotsSet(later, base, libs, l + 1)
  {
    forall m | 0 <= m < l
      ensures SlotsOf(later, LoadAddress(base, libs[..m]), libs[m].imports, |libs[m].imports|)
    {
      var prefix := libs[..l];
      NumberedPrefix(libs, l, stubs);
      StubRange(prefix, m, stubs);
      assert prefix[m] == libs[m];
      assert SlotsOf(arena, LoadAddress(base, libs[..m]), libs[m].imports, |libs[m].imports|);
    }
  }

  lemma {:induction false} NumberedPrefix(libs: seq<Library>, l: nat, stubs: nat)
    requires l <= |libs| && Numbered(AllImports(libs), stubs)
    ensures Numbered(AllImports(libs[..l]), stubs)
    decreases |libs|
  {
    if l == |libs| {
      assert libs[..l] == libs;
    } else {
      var init := libs[..|libs| - 1];
      assert forall k :: 0 <= k < |AllImports(init)| ==> AllImports(libs)[k] == AllImports(init)[k];
      NumberedPrefix(init, l, stubs);
      assert init[..l] == libs[..l];
    }
  }

  /** Gives each import of one library its slot. */
  method SetSlots(file: ElfFile, load: nat, imports: seq<RplImport>, ghost first: nat)
    requires Numbered(imports, first) && first + |imports| <= |file.arena| && load % 4 == 0
    modifies file`arena
    ensures OnlySlots(file.arena, old(file.arena), first, first + |imports|) && |file.arena| == |old(file.arena)|
    ensures SlotsOf(file.arena, load, imports, |imports|)
  {
    for i := 0 to |imports|
      invariant |file.arena| == |old(file.arena)|
      invariant OnlySlots(file.arena, old(file.arena), first, first + |imports|)
      invariant SlotsOf(file.arena, load, imports, i)
    {
      var stub := imports[i].stub;
      SlotBelow(load, i);
      file.arena := file.arena[stub := file.arena[stub].(address := Wrap32(load + 8 + i * 8))];
    }
  }

  /** A stub's address is open to change: its symbol describes no section. */
  lemma SlotsKeepAdded(n: nat, later: seq<Symbol>, arena: seq<Symbol>, symbols: seq<Ptr>, sections: seq<OutputSection>,
                       itr: nat, stubs: nat)
    requires Added(n, arena, symbols, sections, itr) && |later| == |arena|
    requires OnlySlots(later, arena, stubs, n)
    ensures Added(n, later, symbols, sections, itr)
  {
  }

  lemma OnlySlotsTransitive(last: seq<Symbol>, later: seq<Symbol>, arena: seq<Symbol>, stubs: nat, n: nat)
    requires OnlySlots(last, later, stubs, n) && OnlySlots(later, arena, stubs, n)
    ensures OnlySlots(last, arena, stubs, n)
  {
  }

  /** What adding the sections of the first `done` libraries has established. */
  ghost predicate Imported(w: RplWriter, n: nat, stubs: nat, first: nat, base: nat, libs: seq<Library>, done: nat)
    reads w, w.file
  {
    && Added(n, w.file.arena, w.file.symbols, w.sections, w.symbolItr)
    && Linked(w.sections)
    && |w.sections| == first + done
    && SectionsAdded(w.sections, first, base, libs, done)
    && SlotsSet(w.file.arena, base, libs, done)
    && Numbered(AllImports(libs), stubs) && stubs + |AllImports(libs)| == n
  }

  /** Section by library, from the load address `base`: name, range, slots, and the section's own symbol. */
  method AddImportSections(w: RplWriter, base: nat, ghost n: nat, ghost stubs: nat)
    requires Added(n, w.file.arena, w.file.symbols, w.sections, w.symbolItr) && Linked(w.sections)
    requires Numbered(AllImports(w.file.libs), stubs) && stubs + |AllImports(w.file.libs)| == n && base % 4 == 0
    modifies w`sections, w`symbolItr, w.file`arena, w.file`symbols
    ensures Imported(w, n, stubs, |old(w.sections)|, base, w.file.libs, |w.file.libs|)
    ensures Grows(w.sections, old(w.sections)) && OnlySlots(w.file.arena, old(w.file.arena), stubs, n)
  {
    var libs := w.file.libs;
    var loadAddress := base;
    for l := 0 to |libs|
      invariant loadAddress == LoadAddress(base, libs[..l])
      invariant Imported(w, n, stubs, |old(w.sections)|, base, libs, l)
      invariant Grows(w.sections, old(w.sections)) && OnlySlots(w.file.arena, old(w.file.arena), stubs, n)
    {
      ghost var arena, sections := w.file.arena, w.sections;
      loadAddress := AddLibrary(w, loadAddress, l, base, n, stubs, |old(w.sections)|);
      GrowsTransitive(w.sections, sections, old(w.sections));
      OnlySlotsTransitive(w.file.arena, arena, old(w.file.arena), stubs, n);
    }
    assert libs[..|libs|] == libs;
  }

  /** One pass of the loop. */
  method AddLibrary(w: RplWriter, loadAddress: nat, l: nat, ghost base: nat, ghost n: nat, ghost stubs: nat,
                    ghost first: nat)
    returns (next: nat)
    requires l < |w.file.libs| && loadAddress == LoadAddress(base, w.file.libs[..l]) && base % 4 == 0
    requires Imported(w, n, stubs, first, base, w.file.libs, l)
    modifies w`sections, w`symbolItr, w.file`arena, w.file`symbols
    ensures next == LoadAddress(base, w.file.libs[..l + 1])
    ensures Imported(w, n, stubs, first, base, w.file.libs, l + 1)
    ensures Grows(w.sections, old(w.sections)) && OnlySlots(w.file.arena, old(w.file.arena), stubs, n)
  {
    ghost var arena := w.file.arena;
    SetLibrarySlots(w, loadAddress, l, base, n, stubs, first);
    ghost var slotted := w.file.arena;
    next := AddImportSection(w, loadAddress, l, base, n, stubs, first);
    OnlySlotsTransitive(w.file.arena, slotted, arena, stubs, n);
    LoadStep(base, w.file.libs, l);
  }

  lemma LoadStep(base: nat, libs: seq<Library>, l: nat)
    requires l < |libs|
    ensures LoadAddress(base, libs[..l + 1]) == LoadAfter(LoadAddress(base, libs[..l]), libs[l])
  {
    assert libs[..l + 1][..l] == libs[..l];
  }

  /** The part of the loop that updates the library's import symbols. */
  method SetLibrarySlots(w: RplWriter, loadAddress: nat, l: nat, ghost base: nat, ghost n: nat, ghost stubs: nat,
                         ghost first: nat)
    requires l < |w.file.libs| && loadAddress == LoadAddress(base, w.file.libs[..l]) && base % 4 == 0
    requires Imported(w, n, stubs, first, base, w.file.libs, l)
    modifies w.file`arena
    ensures OnlySlots(w.file.arena, old(w.file.arena), stubs, n)
    ensures Added(n, w.file.arena, w.file.symbols, w.sections, w.symbolItr)
    ensures SlotsSet(w.file.arena, base, w.file.libs, l + 1)
  {
    ghost var arena := w.file.arena;
    StubRange(w.file.libs, l, stubs);
    LoadAligned(base, w.file.libs[..l]);
    SetSlots(w.file, loadAddress, w.file.libs[l].imports, stubs + |AllImports(w.file.libs[..l])|);
    SlotsKeepAdded(n, w.file.arena, arena, w.file.symbols, w.sections, w.symbolItr, stubs);
    SlotsStay(w.file.arena, arena, base, w.file.libs, l, stubs);
  }

  /** The part of the loop that adds the library's section and moves the load address. */
  method AddImportSection(w: RplWriter, loadAddress: nat, l: nat, ghost base: nat, ghost n: nat, ghost stubs: nat,
                          ghost first: nat)
    returns (next: nat)
    requires l < |w.file.libs| && loadAddress == LoadAddress(base, w.file.libs[..l])
    requires Added(n, w.file.arena, w.file.symbols, w.sections, w.symbolItr) && Linked(w.sections)
    requires |w.sections| == first + l && SectionsAdded(w.sections, first, base, w.file.libs, l)
    requires SlotsSet(w.file.arena, base, w.file.libs, l + 1)
    requires Numbered(AllImports(w.file.libs), stubs) && stubs + |AllImports(w.file.libs)| == n
    modifies w`sections, w`symbolItr, w.file`arena, w.file`symbols
    ensures next == LoadAfter(loadAddress, w.file.libs[l])
    ensures Imported(w, n, stubs, first, base, w.file.libs, l + 1)
    ensures Grows(w.sections, old(w.sections)) && OnlySlots(w.file.arena, old(w.file.arena), stubs, n)
  {
    var lib := w.file.libs[l];
    var size := SectionSize(lib);
    next := LoadAfter(loadAddress, lib);
    ghost var arena, sections := w.file.arena, w.sections;
    w.AddSection(NewSection(".fimport_" + lib.name, SHT_RPL_IMPORTS, loadAddress, size, 0, size), n);
    SlotsSurvive(w.file.arena, arena, base, w.file.libs, l + 1);
    AppendLinks(sections, w.sections[first + l]);
    SectionsAppend(sections, w.sections[first + l], first, base, w.file.libs, l);
  }

  lemma SectionsAppend(sections: seq<OutputSection>, section: OutputSection, first: nat, base: nat,
                       libs: seq<Library>, l: nat)
    requires l < |libs| && |sections| == first + l && SectionsAdded(sections, first, base, libs, l)
    requires IsImportSection(section, LoadAddress(base, libs[..l]), libs[l])
    ensures SectionsAdded(sections + [section], first, base, libs, l + 1)
  {
  }

  lemma SlotsSurvive(later: seq<Symbol>, arena: seq<Symbol>, base: nat, libs: seq<Library>, done: nat)
    requires arena <= later && SlotsSet(arena, base, libs, done)
    ensures SlotsSet(later, base, libs, done)
  {
    forall l | 0 <= l < done <= |libs|
      ensures SlotsOf(later, LoadAddress(base, libs[..l]), libs[l].imports, |libs[l].imports|)
    {
      assert SlotsOf(arena, LoadAddress(base, libs[..l]), libs[l].imports, |libs[l].imports|);
    }
  }

  // ---------- What the layout means ----------

  function TotalSize(libs: seq<Library>): nat {
    if libs == [] then 0 else TotalSize(libs[..|libs| - 1]) + SectionSize(libs[|libs| - 1])
  }

  lemma {:induction false} TotalSizePrefix(libs: seq<Library>, l: nat)
    requires l <= |libs|
    ensures TotalSize(libs[..l]) <= TotalSize(libs)
    ensures l < |libs| ==> TotalSize(libs[..l]) + SectionSize(libs[l]) <= TotalSize(libs)
    decreases |libs|
  {
    if l == |libs| {
      assert libs[..l] == libs;
    } else if l < |libs| - 1 {
      var init := libs[..|libs| - 1];
      TotalSizePrefix(init, l);
      assert init[..l] == libs[..l];
    }
  }

  lemma AlignedSum(load: nat, size: nat)
    requires load % 4 == 0 && size % 8 == 0
    ensures (load + size) % 4 == 0 && AlignUp(load + size, 4) == load + size
  {
    assert (load + size) % 4 == 0;
  }

  /** Without wrap-around the sections follow each other without gaps. */
  lemma {:induction false} LoadIsSum(base: nat, libs: seq<Library>)
    requires base % 4 == 0 && base + TotalSize(libs) < TWO_TO_32
    ensures LoadAddress(base, libs) == base + TotalSize(libs)
    ensures LoadAddress(base, libs) % 4 == 0
  {
    if libs != [] {
      var init, last := libs[..|libs| - 1], libs[|libs| - 1];
      LoadIsSum(base, init);
      AlignedSum(base + TotalSize(init), SectionSize(last));
    }
  }

  /** Import sections never overlap, and every slot lies in its own library's section past the header. */
  lemma ImportSectionsDisjoint(base: nat, libs: seq<Library>, l: nat, m: nat)
    requires base % 4 == 0 && base + TotalSize(libs) < TWO_TO_32
    requires l < m < |libs|
    ensures LoadAddress(base, libs[..l]) + SectionSize(libs[l]) <= LoadAddress(base, libs[..m])
  {
    TotalSizePrefix(libs, l);
    TotalSizePrefix(libs, m);
    LoadIsSum(base, libs[..l]);
    LoadIsSum(base, libs[..m]);
    TotalSizePrefix(libs[..m], l);
    assert libs[..m][..l] == libs[..l];
  }

  lemma SlotInSection(base: nat, libs: seq<Library>, l: nat, i: nat)
    requires base % 4 == 0 && base + TotalSize(libs) < TWO_TO_32
    requires l < |libs| && i < |libs[l].imports|
    ensures var load := LoadAddress(base, libs[..l]);
            load + 8 <= SlotAddress(load, i) == load + 8 + 8 * i <= load + SectionSize(libs[l]) - 8
  {
    TotalSizePrefix(libs, l);
    LoadIsSum(base, libs[..l]);
  }

  /** No two imports, of one library or of two, share a slot. */
  lemma SlotsDistinct(base: nat, libs: seq<Library>, l: nat, i: nat, m: nat, j: nat)
    requires base % 4 == 0 && base + TotalSize(libs) < TWO_TO_32
    requires l < |libs| && i < |libs[l].imports| && m < |libs| && j < |libs[m].imports|
    requires (l, i) != (m, j)
    ensures SlotAddress(LoadAddress(base, libs[..l]), i) != SlotAddress(LoadAddress(base, libs[..m]), j)
  {
    SlotInSection(base, libs, l, i);
    SlotInSection(base, libs, m, j);
    if l < m {
      ImportSectionsDisjoint(base, libs, l, m);
    } else if m < l {
      ImportSectionsDisjoint(base, libs, m, l);
    }
  }
}
