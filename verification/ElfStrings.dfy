/** The string tables: every name can be read back at the position recorded for it. */
module ElfStrings {
  import opened Ctype
  import opened Words
  import opened Wrappers
  import opened ElfSymbols
  import opened ElfRead
  import opened ElfSections

  /** The table for a list of names: one leading NUL, then each non-empty name with its NUL. */
  function Table(names: seq<string>): (r: string)
    ensures |r| >= 1 && r[0] == NUL
  {
    if names == [] then [NUL]
    else
      var last := names[|names| - 1];
      Table(names[..|names| - 1]) + if last == "" then "" else last + [NUL]
  }

  /** Where name `k` starts; the empty name shares the leading NUL. */
  function Position(names: seq<string>, k: nat): nat
    requires k < |names|
  {
    if names[k] == "" then 0 else |Table(names[..k])|
  }

  /** The NUL-terminated string at a position. */
  function StringAt(data: string, pos: nat): string
    decreases |data| - pos
  {
    if pos >= |data| || data[pos] == NUL then "" else [data[pos]] + StringAt(data, pos + 1)
  }

  lemma {:induction false} StringAtReads(data: string, pos: nat, name: string)
    requires NUL !in name && pos + |name| < |data|
    requires data[pos..pos + |name|] == name && data[pos + |name|] == NUL
    ensures StringAt(data, pos) == name
    decreases |name|
  {
    if name != "" {
      assert data[pos] == name[0];
      assert data[pos + 1..pos + 1 + |name[1..]|] == name[1..];
      StringAtReads(data, pos + 1, name[1..]);
    }
  }

  lemma {:induction false} TablePrefix(names: seq<string>, k: nat)
    requires k <= |names|
    ensures Table(names[..k]) <= Table(names)
    decreases |names|
  {
    if k == |names| {
      assert names[..k] == names;
    } else {
      TablePrefix(names[..|names| - 1], k);
      assert names[..|names| - 1][..k] == names[..k];
    }
  }

  /** Reading the finished table at a name's position gives the name, for all names at once. */
  lemma TableRoundTrip(names: seq<string>, k: nat)
    requires k < |names| && NUL !in names[k]
    ensures Position(names, k) < |Table(names)|
    ensures StringAt(Table(names), Position(names, k)) == names[k]
  {
    if names[k] != "" {
      var data, upto := Table(names), Table(names[..k + 1]);
      assert names[..k + 1][..k] == names[..k];
      assert upto == Table(names[..k]) + names[k] + [NUL];
      TablePrefix(names, k + 1);
      var pos := Position(names, k);
      assert data[pos..pos + |names[k]|] == upto[pos..pos + |names[k]|] == names[k];
      assert data[pos + |names[k]|] == upto[pos + |names[k]|];
      StringAtReads(data, pos, names[k]);
    }
  }

  /** The bytes that names take up, each with a terminator; empty ones take none. */
  function Bytes(names: seq<string>): nat {
    if names == [] then 0
    else
      var last := names[|names| - 1];
      Bytes(names[..|names| - 1]) + if last == "" then 0 else |last| + 1
  }

  /** Besides the leading terminator the table holds nothing else. */
  lemma {:induction false} TableLength(names: seq<string>)
    ensures |Table(names)| == 1 + Bytes(names)
  {
    if names != [] {
      TableLength(names[..|names| - 1]);
    }
  }

  function SymbolNames(arena: seq<Symbol>, symbols: seq<Ptr>): (r: seq<string>)
    requires Allocated(arena, symbols)
    ensures |r| == |symbols|
    ensures forall i :: 0 <= i < |r| ==> r[i] == arena[symbols[i]].name
  {
    seq(|symbols|, i requires 0 <= i < |symbols| => arena[symbols[i]].name)
  }

  function SectionNames(sections: seq<OutputSection>): (r: seq<string>)
    ensures |r| == |sections|
    ensures forall i :: 0 <= i < |r| ==> r[i] == sections[i].name
  {
    seq(|sections|, i requires 0 <= i < |sections| => sections[i].name)
  }

  /** `later` is `arena` with the name positions of the first `count` listed symbols recorded. */
  ghost predicate Recorded(later: seq<Symbol>, arena: seq<Symbol>, symbols: seq<Ptr>, names: seq<string>, count: nat) {
    && |later| == |arena| && |names| == |symbols| && count <= |symbols| && Allocated(arena, symbols)
    && (forall p :: 0 <= p < |arena| ==> later[p] == arena[p].(outNamePos := later[p].outNamePos))
    && forall i :: 0 <= i < count ==> later[symbols[i]].outNamePos == Wrap32(Position(names, i))
  }

  lemma RecordStep(later: seq<Symbol>, arena: seq<Symbol>, symbols: seq<Ptr>, names: seq<string>, i: nat)
    requires Recorded(later, arena, symbols, names, i) && i < |symbols| && Distinct(symbols)
    ensures Recorded(later[symbols[i] := later[symbols[i]].(outNamePos := Wrap32(Position(names, i)))],
                     arena, symbols, names, i + 1)
    ensures names[..i + 1][..i] == names[..i]
  {
  }

  /** Adds all symbol names to the data and records each symbol's position. */
  method BuildStrTab(file: ElfFile) returns (data: string)
    requires Allocated(file.arena, file.symbols) && Distinct(file.symbols)
    modifies file`arena
    ensures data == Table(SymbolNames(old(file.arena), file.symbols))
    ensures Recorded(file.arena, old(file.arena), file.symbols, SymbolNames(old(file.arena), file.symbols),
                     |file.symbols|)
  {
    ghost var names := SymbolNames(file.arena, file.symbols);
    data := [NUL];
    for i := 0 to |file.symbols|
      invariant data == Table(names[..i])
      invariant Recorded(file.arena, old(file.arena), file.symbols, names, i)
    {
      var p := file.symbols[i];
      RecordStep(file.arena, old(file.arena), file.symbols, names, i);
      if file.arena[p].name == "" {
        file.arena := file.arena[p := file.arena[p].(outNamePos := 0)];
      } else {
        file.arena := file.arena[p := file.arena[p].(outNamePos := Wrap32(|data|))];
        data := data + file.arena[p].name;
        data := data + [NUL];
      }
    }
    assert names[..|names|] == names;
  }

  /** The first `count` sections have their name positions. */
  ghost predicate Named(later: seq<OutputSection>, sections: seq<OutputSection>, names: seq<string>, count: nat) {
    && |later| == |sections| == |names| && count <= |names|
    && (forall i :: 0 <= i < count ==> later[i] == sections[i].(namePos := Wrap32(Position(names, i))))
    && forall i :: count <= i < |later| ==> later[i] == sections[i]
  }

  lemma NameStep(later: seq<OutputSection>, sections: seq<OutputSection>, names: seq<string>, i: nat)
    requires Named(later, sections, names, i) && i < |names|
    ensures Named(later[i := later[i].(namePos := Wrap32(Position(names, i)))], sections, names, i + 1)
    ensures names[..i + 1][..i] == names[..i]
  {
  }

  /** Adds all section names to the data and records each section's position. */
  method BuildShStrTab(w: RplWriter) returns (data: string)
    modifies w`sections
    ensures data == Table(SectionNames(old(w.sections)))
    ensures Named(w.sections, old(w.sections), SectionNames(old(w.sections)), |w.sections|)
  {
    ghost var names := SectionNames(w.sections);
    data := [NUL];
    for i := 0 to |w.sections|
      invariant data == Table(names[..i])
      invariant Named(w.sections, old(w.sections), names, i)
    {
      NameStep(w.sections, old(w.sections), names, i);
      var s := w.sections[i];
      if s.name == "" {
        w.sections := w.sections[i := s.(namePos := 0)];
      } else {
        w.sections := w.sections[i := s.(namePos := Wrap32(|data|))];
        data := data + s.name;
        data := data + [NUL];
      }
    }
    assert names[..|names|] == names;
  }
}
