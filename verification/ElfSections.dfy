/**
 * The output's section list and the section symbols that go with it. Sections are only ever appended,
 * so a pointer to a section is its position in the list.
 */
module ElfSections {
  import opened Words
  import opened Wrappers
  import opened ElfSymbols
  import opened ElfRead

  const SHT_NULL: nat := 0
  const SHT_SYMTAB: nat := 2
  const SHT_STRTAB: nat := 3
  const SHT_RELA: nat := 4
  const SHT_NOBITS: nat := 8
  const SHT_RPL_IMPORTS: nat := 0x8000_0002
  const SHT_RPL_CRCS: nat := 0x8000_0003
  const SHT_RPL_FILEINFO: nat := 0x8000_0004

  /** The unsigned 32-bit reading of -1, used for a header field not filled in yet. */
  const UNSET: nat := 0xFFFF_FFFF

  /** One output relocation entry of 12 bytes. */
  datatype Rela = Rela(offset: nat, info: nat, addend: int)

  /**
   * Header fields that matter here, the size of the section's data, and for a relocation section
   * that data as entries. `namePos` and `offset` are filled in by the last passes.
   */
  datatype OutputSection = OutputSection(
    name: string, kind: nat, addr: nat, size: nat, info: nat, dataSize: nat,
    relas: seq<Rela>, relocationSection: Option<nat>, sectionSymbol: Option<Ptr>,
    namePos: nat, offset: nat, link: nat)

  /** A section that has just been created, before it is linked to anything. */
  function NewSection(name: string, kind: nat, addr: nat, size: nat, info: nat, dataSize: nat): OutputSection {
    OutputSection(name, kind, addr, size, info, dataSize, [], None, None, UNSET, UNSET, 0)
  }

  /** The null section is cleared to zero; in particular its file offset is zero, not unset. */
  const NULL_SECTION: OutputSection := OutputSection("", SHT_NULL, 0, 0, 0, 0, [], None, None, 0, 0, 0)

  /** A text, data or bss section of the input. */
  datatype DataSection = DataSection(name: string, address: nat, kind: nat, size: nat)

  predicate Contains(s: OutputSection, address: nat) {
    s.addr <= address < Wrap32(s.addr + s.size)
  }

  /** Section `i` is the first one whose range contains the address. */
  ghost predicate IsFirst(sections: seq<OutputSection>, address: nat, i: nat) {
    && i < |sections| && Contains(sections[i], address)
    && forall j :: 0 <= j < i ==> !Contains(sections[j], address)
  }

  method FindSection(sections: seq<OutputSection>, address: nat) returns (r: Option<nat>)
    ensures r.Some? ==> IsFirst(sections, address, r.value)
    ensures r.None? ==> forall i :: 0 <= i < |sections| ==> !Contains(sections[i], address)
  {
    for i := 0 to |sections|
      invariant forall j :: 0 <= j < i ==> !Contains(sections[j], address)
    {
      var start, end := sections[i].addr, Wrap32(sections[i].addr + sections[i].size);
      if address >= start && address < end {
        return Some(i);
      }
    }
    return None;
  }

  /** Sections that kept their place, name and range: what every stage before the size update does to the list. */
  ghost predicate Extends(later: seq<OutputSection>, sections: seq<OutputSection>) {
    && |sections| <= |later|
    && forall i :: 0 <= i < |sections| ==> SameRange(later[i], sections[i])
  }

  predicate SameRange(later: OutputSection, s: OutputSection) {
    && later.name == s.name && later.kind == s.kind && later.addr == s.addr && later.size == s.size
    && later.dataSize == s.dataSize
  }

  /** The first section containing an address stays the first when sections are appended. */
  lemma FirstIsStable(later: seq<OutputSection>, sections: seq<OutputSection>, address: nat, i: nat)
    requires Extends(later, sections) && IsFirst(sections, address, i)
    ensures IsFirst(later, address, i)
  {
  }

  lemma OnlyFirst(sections: seq<OutputSection>, address: nat, i: nat, j: nat)
    requires IsFirst(sections, address, i) && IsFirst(sections, address, j)
    ensures i == j
  {
  }

  /** The symbol list once `m` section symbols sit between the reserved four and the rest. */
  function Order(n: nat, m: nat): (r: seq<Ptr>)
    requires n >= 4
    ensures |r| == n + m
    ensures forall i :: 0 <= i < n + m ==> r[i] == if i < 4 then i else if i < 4 + m then n + i - 4 else i - m
  {
    seq(n + m, i => if 0 <= i < 4 then i else if 4 <= i < 4 + m then n + i - 4 else if i >= 4 + m then i - m else 0)
  }

  lemma OrderDistinct(n: nat, m: nat)
    requires n >= 4
    ensures Distinct(Order(n, m))
    ensures forall p :: 0 <= p < n + m ==> p in Order(n, m)
  {
    forall p | 0 <= p < n + m
      ensures p in Order(n, m)
    {
      var i := if p < 4 then p else if p < n then p + m else p - n + 4;
      assert Order(n, m)[i] == p;
    }
  }

  /** A section symbol describes its section. */
  predicate Describes(s: Symbol, section: OutputSection) {
    s.kind == STT_SECTION && s.binding == STB_LOCAL && s.address == section.addr && s.name == section.name
  }

  /**
   * The arena, symbol list and section list while sections are being added: `n` symbols were read,
   * every section but the null one has a symbol, and those symbols follow the reserved four in section order.
   */
  ghost predicate Added(n: nat, arena: seq<Symbol>, symbols: seq<Ptr>, sections: seq<OutputSection>, symbolItr: nat) {
    && n >= 4 && |sections| >= 1 && |arena| == n + |sections| - 1
    && symbols == Order(n, |arena| - n) && symbolItr == 4 + |sections| - 1
    && sections[0] == NULL_SECTION
    && forall j :: 1 <= j < |sections| ==>
         && sections[j].sectionSymbol == Some(n + j - 1) && Describes(arena[n + j - 1], sections[j])
         && Untouched(sections[j])
  }

  /** No entries and no file offset yet. */
  predicate Untouched(s: OutputSection) {
    s.relas == [] && s.offset == UNSET
  }

  class RplWriter {
    const file: ElfFile
    var sections: seq<OutputSection>
    var symbolItr: nat
    /** The table sizes predicted before the import sections are placed. */
    var predictStrTabSize: nat
    var predictSymTabSize: nat
    /** The entries emitted so far, each with the relocation section it went to. */
    ghost var log: seq<(nat, Rela)>

    constructor (file: ElfFile)
      ensures this.file == file && sections == [NULL_SECTION] && symbolItr == 4 && log == []
    {
      this.file := file;
      sections := [NULL_SECTION];
      symbolItr := 4;
      predictStrTabSize, predictSymTabSize := 1, 1;
      log := [];
    }

    /** Appends the section and inserts its symbol at the iterator, which moves past it. */
    method AddSection(section: OutputSection, ghost n: nat)
      requires Added(n, file.arena, file.symbols, sections, symbolItr) && Untouched(section)
      modifies this`sections, this`symbolItr, file`arena, file`symbols
      ensures Added(n, file.arena, file.symbols, sections, symbolItr)
      ensures sections == old(sections) + [section.(sectionSymbol := Some(|old(file.arena)|))]
      ensures file.arena == old(file.arena) + [Symbol(section.name, section.addr, UNSET, STT_SECTION, STB_LOCAL, 0)]
    {
      var symbol := |file.arena|;
      file.arena := file.arena + [Symbol(section.name, section.addr, UNSET, STT_SECTION, STB_LOCAL, 0)];
      sections := sections + [section.(sectionSymbol := Some(symbol))];
      file.symbols := file.symbols[..symbolItr] + [symbol] + file.symbols[symbolItr..];
      symbolItr := symbolItr + 1;
      assert file.symbols == Order(n, |file.arena| - n);
    }

    /** One output section per input section, in input order. */
    method AddDataSections(data: seq<DataSection>, ghost n: nat)
      requires Added(n, file.arena, file.symbols, sections, symbolItr) && |sections| == 1
      modifies this`sections, this`symbolItr, file`arena, file`symbols
      ensures Added(n, file.arena, file.symbols, sections, symbolItr)
      ensures DataAdded(sections, data) && |sections| == 1 + |data|
      ensures old(file.arena) <= file.arena
    {
      for i := 0 to |data|
        invariant Added(n, file.arena, file.symbols, sections, symbolItr)
        invariant DataAdded(sections, data) && |sections| == 1 + i
        invariant old(file.arena) <= file.arena
      {
        var d := data[i];
        AddSection(NewSection(d.name, d.kind, d.address, d.size, 0, if d.kind == SHT_NOBITS then 0 else d.size), n);
      }
    }
  }

  /** The sections after the null one are the input's, with their names, kinds and ranges. */
  ghost predicate DataAdded(sections: seq<OutputSection>, data: seq<DataSection>) {
    1 <= |sections| <= 1 + |data| &&
    forall i :: 1 <= i < |sections| ==> IsData(sections[i], data[i - 1])
  }

  predicate IsData(s: OutputSection, d: DataSection) {
    && s.name == d.name && s.kind == d.kind && s.addr == d.address && s.size == d.size && s.offset == UNSET
    && s.dataSize == (if d.kind == SHT_NOBITS then 0 else d.size) && s.relas == [] && s.relocationSection == None
  }
}
