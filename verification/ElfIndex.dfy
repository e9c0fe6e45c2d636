/** The section that the output's symbol table records for every symbol. */
module ElfIndex {
  import opened Words
  import opened Wrappers
  import opened ElfSymbols
  import opened ElfRead
  import opened ElfSections
  import opened ElfRelaSections
  import opened ElfImportSlots

  /** Section `i` is the first one of this name. */
  ghost predicate IsNamedFirst(sections: seq<OutputSection>, name: string, i: nat) {
    i < |sections| && sections[i].name == name && forall j :: 0 <= j < i ==> sections[j].name != name
  }

  method FindSectionNamed(sections: seq<OutputSection>, name: string) returns (r: Option<nat>)
    ensures r.Some? ==> IsNamedFirst(sections, name, r.value)
    ensures r.None? ==> forall i :: 0 <= i < |sections| ==> sections[i].name != name
  {
    for i := 0 to |sections|
      invariant forall j :: 0 <= j < i ==> sections[j].name != name
    {
      if sections[i].name == name {
        return Some(i);
      }
    }
    return None;
  }

  /** A section symbol at address zero goes by its name, every other symbol by its address. */
  predicate GoesByName(s: Symbol) {
    s.kind == STT_SECTION && s.address == 0
  }

  ghost predicate IndexIs(s: Symbol, sections: seq<OutputSection>, i: nat) {
    if GoesByName(s) then IsNamedFirst(sections, s.name, i) else IsFirst(sections, s.address, i)
  }

  /** The section is the first to hold the symbol's address, or for a section symbol at zero the first of its name. */
  ghost predicate RecordedIn(s: Symbol, sections: seq<OutputSection>, i: nat) {
    && i < |sections|
    && if s.kind == 3 && s.address == 0 then
         sections[i].name == s.name && forall j :: 0 <= j < i ==> sections[j].name != s.name
       else
         && sections[i].addr <= s.address < (sections[i].addr + sections[i].size) % 0x1_0000_0000
         && forall j :: 0 <= j < i ==>
              !(sections[j].addr <= s.address < (sections[j].addr + sections[j].size) % 0x1_0000_0000)
  }

  lemma IndexIsRecorded(s: Symbol, sections: seq<OutputSection>, i: nat)
    requires IndexIs(s, sections, i)
    ensures RecordedIn(s, sections, i)
  {
    if !GoesByName(s) {
      forall j | 0 <= j < i
        ensures !(sections[j].addr <= s.address < (sections[j].addr + sections[j].size) % 0x1_0000_0000)
      {
        assert !Contains(sections[j], s.address);
      }
    }
  }

  ghost predicate Indexes(arena: seq<Symbol>, symbols: seq<Ptr>, sections: seq<OutputSection>, shndx: seq<nat>)
    requires Allocated(arena, symbols)
  {
    |shndx| == |symbols| && forall k :: 0 <= k < |symbols| ==> IndexIs(arena[symbols[k]], sections, shndx[k])
  }

  /** While the sections are searched, some section seems to lie over nearly all addresses. */
  ghost predicate Covered(sections: seq<OutputSection>) {
    exists i :: 0 <= i < |sections| && Spans(sections[i])
  }

  /** Every symbol that goes by its name has a section of that name. */
  ghost predicate NamesThere(arena: seq<Symbol>, symbols: seq<Ptr>, sections: seq<OutputSection>)
    requires Allocated(arena, symbols)
  {
    forall k :: 0 <= k < |symbols| && GoesByName(arena[symbols[k]]) ==>
      exists i :: 0 <= i < |sections| && sections[i].name == arena[symbols[k]].name
  }

  /** No listed symbol is at the greatest address. */
  ghost predicate AllBelow(arena: seq<Symbol>, symbols: seq<Ptr>)
    requires Allocated(arena, symbols)
  {
    forall k :: 0 <= k < |symbols| ==> arena[symbols[k]].address < UNSET
  }

  /** Only the greatest address is in no section then. */
  lemma CoveredSearch(sections: seq<OutputSection>, address: nat)
    requires Covered(sections)
    ensures (exists i :: 0 <= i < |sections| && Contains(sections[i], address)) <==> address < UNSET
  {
    var c :| 0 <= c < |sections| && Spans(sections[c]);
    assert Contains(sections[c], address) <==> address < UNSET;
  }

  /** Looks up the section of one symbol. */
  method IndexSymbol(s: Symbol, sections: seq<OutputSection>) returns (r: Option<nat>)
    requires Covered(sections)
    requires GoesByName(s) ==> exists i :: 0 <= i < |sections| && sections[i].name == s.name
    ensures r.Some? <==> s.address < 0xFFFF_FFFF
    ensures r.Some? ==> IndexIs(s, sections, r.value) && RecordedIn(s, sections, r.value)
  {
    CoveredSearch(sections, s.address);
    r := FindSection(sections, s.address);
    if s.kind == STT_SECTION && s.address == 0 {
      r := FindSectionNamed(sections, s.name);
    }
    if r.Some? {
      IndexIsRecorded(s, sections, r.value);
    }
  }

  /** Looks up the section of every listed symbol; it fails exactly when one of them is at the greatest address. */
  method IndexSymbols(file: ElfFile, sections: seq<OutputSection>) returns (ok: bool, shndx: seq<nat>)
    requires Allocated(file.arena, file.symbols) && Covered(sections)
    requires NamesThere(file.arena, file.symbols, sections)
    ensures ok <==> AllBelow(file.arena, file.symbols)
    ensures ok ==> Indexes(file.arena, file.symbols, sections, shndx)
    ensures ok ==> forall k :: 0 <= k < |file.symbols| ==>
      RecordedIn(file.arena[file.symbols[k]], sections, shndx[k])
  {
    shndx := [];
    for k := 0 to |file.symbols|
      invariant |shndx| == k
      invariant forall j :: 0 <= j < k ==> IndexIs(file.arena[file.symbols[j]], sections, shndx[j])
      invariant forall j :: 0 <= j < k ==> RecordedIn(file.arena[file.symbols[j]], sections, shndx[j])
      invariant forall j :: 0 <= j < k ==> file.arena[file.symbols[j]].address < UNSET
    {
      var index := IndexSymbol(file.arena[file.symbols[k]], sections);
      if index.None? {
        return false, shndx;
      }
      shndx := shndx + [index.value];
    }
    ok := true;
  }

  // ---------- Where imports are recorded ----------

  /** The ranges of the import sections, from `first` on. */
  ghost predicate LibrariesIn(sections: seq<OutputSection>, first: nat, base: nat, libs: seq<Library>) {
    first + |libs| <= |sections| &&
    forall l :: 0 <= l < |libs| ==> InLibrary(sections[first + l], LoadAddress(base, libs[..l]), libs[l])
  }

  predicate InLibrary(s: OutputSection, load: nat, lib: Library) {
    s.addr == load && s.size == SectionSize(lib)
  }

  /** A slot lies in its own library's section. */
  lemma SlotContained(sections: seq<OutputSection>, first: nat, base: nat, libs: seq<Library>, l: nat, i: nat)
    requires LibrariesIn(sections, first, base, libs) && base % 4 == 0 && base + TotalSize(libs) < TWO_TO_32
    requires l < |libs| && i < |libs[l].imports|
    ensures var slot := SlotAddress(LoadAddress(base, libs[..l]), i);
            Contains(sections[first + l], slot) && base <= slot
  {
    SlotInSection(base, libs, l, i);
    TotalSizePrefix(libs, l);
    LoadIsSum(base, libs[..l]);
    assert InLibrary(sections[first + l], LoadAddress(base, libs[..l]), libs[l]);
  }

  /** It is in no section of an earlier library. */
  lemma SlotNotEarlier(sections: seq<OutputSection>, first: nat, base: nat, libs: seq<Library>, m: nat, l: nat, i: nat)
    requires LibrariesIn(sections, first, base, libs) && base % 4 == 0 && base + TotalSize(libs) < TWO_TO_32
    requires m < l < |libs| && i < |libs[l].imports|
    ensures !Contains(sections[first + m], SlotAddress(LoadAddress(base, libs[..l]), i))
  {
    SlotInSection(base, libs, l, i);
    ImportSectionsDisjoint(base, libs, m, l);
    TotalSizePrefix(libs, m);
    LoadIsSum(base, libs[..m]);
    assert InLibrary(sections[first + m], LoadAddress(base, libs[..m]), libs[m]);
  }

  /**
   * Every import symbol is recorded in its own library's section, where no section in front of the import sections
   * reaches up to them.
   */
  lemma ImportIndexed(s: Symbol, sections: seq<OutputSection>, first: nat, base: nat, libs: seq<Library>, l: nat,
                      i: nat, index: nat)
    requires LibrariesIn(sections, first, base, libs) && base % 4 == 0 && base + TotalSize(libs) < TWO_TO_32
    requires l < |libs| && i < |libs[l].imports| && s.address == SlotAddress(LoadAddress(base, libs[..l]), i)
    requires s.kind != STT_SECTION && IndexIs(s, sections, index)
    requires forall j :: 0 <= j < first ==> sections[j].addr + sections[j].size <= base
    ensures index == first + l
  {
    SlotContained(sections, first, base, libs, l, i);
    var at := first + l;
    forall j | 0 <= j < at
      ensures !Contains(sections[j], s.address)
    {
      SlotNotBefore(sections, first, base, libs, l, i, j, s.address);
    }
    OnlyFirst(sections, s.address, index, at);
  }

  lemma SlotNotBefore(sections: seq<OutputSection>, first: nat, base: nat, libs: seq<Library>, l: nat, i: nat, j: nat,
                      slot: nat)
    requires LibrariesIn(sections, first, base, libs) && base % 4 == 0 && base + TotalSize(libs) < TWO_TO_32
    requires l < |libs| && i < |libs[l].imports| && slot == SlotAddress(LoadAddress(base, libs[..l]), i)
    requires base <= slot && j < first + l && (j < first ==> sections[j].addr + sections[j].size <= base)
    ensures !Contains(sections[j], slot)
  {
    if j < first {
      BelowBase(sections[j], base, slot);
    } else {
      var m := j - first;
      SlotNotEarlier(sections, first, base, libs, m, l, i);
      assert sections[first + m] == sections[j];
    }
  }

  lemma BelowBase(s: OutputSection, base: nat, address: nat)
    requires s.addr + s.size <= base <= address
    ensures !Contains(s, address)
  {
  }
}
