/** Emitting one entry per relocation into the relocation section of the section it targets. */
module ElfEmit {
  import opened Words
  import opened Wrappers
  import opened ElfSymbols
  import opened ElfRead
  import opened ElfSections
  import opened ElfRelaSections
  import opened ElfConvert

  /** The relocation's symbol exists. */
  ghost predicate Alive(freed: set<Ptr>, r: Relocation) {
    r.symbol.Some? && r.symbol.value !in freed
  }

  /** The entries that went to section `v`, in emission order. */
  function EntriesOf(log: seq<(nat, Rela)>, v: nat): seq<Rela> {
    if log == [] then []
    else
      var last := log[|log| - 1];
      EntriesOf(log[..|log| - 1], v) + if last.0 == v then [last.1] else []
  }

  /** The section with entries added, 12 bytes each. */
  function WithEntries(s: OutputSection, entries: seq<Rela>): OutputSection {
    s.(relas := s.relas + entries, dataSize := s.dataSize + 12 * |entries|)
  }

  /** The sections of `base` with exactly the logged entries added. */
  ghost predicate Filled(sections: seq<OutputSection>, base: seq<OutputSection>, log: seq<(nat, Rela)>) {
    && |sections| == |base|
    && forall v :: 0 <= v < |base| ==> sections[v] == WithEntries(base[v], EntriesOf(log, v))
  }

  /** Section `v` is where relocations of this target go. */
  ghost predicate GoesTo(sections: seq<OutputSection>, target: nat, v: nat) {
    exists i: nat :: IsFirst(sections, target, i) && Owns(sections, i, v)
  }

  /** The log holds the entry of every relocation so far, in relocation order, each in its section. */
  ghost predicate Logged(base: seq<OutputSection>, symbols: seq<Ptr>, relocations: seq<Relocation>,
                         log: seq<(nat, Rela)>)
  {
    && |log| == |relocations|
    && forall k :: 0 <= k < |log| ==>
         EntryIs(symbols, relocations[k], log[k].1) && GoesTo(base, relocations[k].target, log[k].0)
  }

  predicate EntryIs(symbols: seq<Ptr>, r: Relocation, rela: Rela) {
    r.addend < TWO_TO_32 && Entry(symbols, r) == Some(rela)
  }

  /** The relocation names a symbol of the arena, if any, and its addend fits a word. */
  predicate Ready(arena: seq<Symbol>, r: Relocation) {
    (r.symbol.Some? ==> r.symbol.value < |arena|) && r.addend < TWO_TO_32
  }

  lemma FilledFirst(sections: seq<OutputSection>, base: seq<OutputSection>, log: seq<(nat, Rela)>, address: nat, i: nat)
    requires Filled(sections, base, log) && IsFirst(base, address, i)
    ensures IsFirst(sections, address, i)
  {
    forall j | 0 <= j <= i
      ensures Contains(base[j], address) == Contains(sections[j], address)
    {
      assert sections[j] == WithEntries(base[j], EntriesOf(log, j));
    }
  }

  /** One more entry fills one section by one. */
  lemma FilledAppend(sections: seq<OutputSection>, base: seq<OutputSection>, log: seq<(nat, Rela)>, v: nat, rela: Rela)
    requires Filled(sections, base, log) && v < |base|
    ensures Filled(sections[v := WithEntries(sections[v], [rela])], base, log + [(v, rela)])
  {
    var more := log + [(v, rela)];
    assert more[..|log|] == log;
  }

  lemma LoggedAppend(base: seq<OutputSection>, symbols: seq<Ptr>, relocations: seq<Relocation>, k: nat,
                     log: seq<(nat, Rela)>, entry: (nat, Rela))
    requires k < |relocations| && Logged(base, symbols, relocations[..k], log)
    requires EntryIs(symbols, relocations[k], entry.1) && GoesTo(base, relocations[k].target, entry.0)
    ensures Logged(base, symbols, relocations[..k + 1], log + [entry])
  {
    assert relocations[..k + 1] == relocations[..k] + [relocations[k]];
  }

  /** The position of a symbol in the list, found as the library search does. */
  method FindIndex(symbols: seq<Ptr>, p: Option<Ptr>) returns (r: Option<nat>)
    ensures r == IndexOf(symbols, p)
  {
    for i := 0 to |symbols|
      invariant IndexOf(symbols, p) ==
                match IndexOf(symbols[i..], p) case Some(k) => Some(k + i) case None => None
    {
      assert symbols[i..][1..] == symbols[i + 1..];
      if Some(symbols[i]) == p {
        return Some(i);
      }
    }
    return None;
  }

  /**
   * Builds the entry of one relocation. Where the symbol is not listed, the next thing the program does is to
   * read the symbol's address, so that there is no entry exactly when the symbol does not exist.
   */
  method MakeEntry(file: ElfFile, r: Relocation) returns (rela: Option<Rela>)
    requires Ready(file.arena, r) && Owned(file.arena, file.symbols, file.freed)
    ensures rela == Entry(file.symbols, r)
    ensures rela.Some? <==> Alive(file.freed, r)
  {
    var index := FindIndex(file.symbols, r.symbol);
    if index.None? {
      return None;
    }
    var idx := index.value;
    var info := if r.kind == R_PPC_RELATIVE then Wrap32(R_PPC_ADDR32 + idx * 256) else Wrap32(r.kind + idx * 256);
    return Some(Rela(r.target, info, ToInt32(r.addend)));
  }

  ghost predicate AllAlive(freed: set<Ptr>, relocations: seq<Relocation>) {
    forall r :: r in relocations ==> Alive(freed, r)
  }

  /** Relocation `k` is the first whose symbol does not exist. */
  ghost predicate FirstLost(k: nat, freed: set<Ptr>, relocations: seq<Relocation>) {
    k < |relocations| && !Alive(freed, relocations[k]) && AllAlive(freed, relocations[..k])
  }

  /** The first `k` relocations have their entries, and nothing stood in their way. */
  ghost predicate ConvertedUpTo(k: nat, freed: set<Ptr>, base: seq<OutputSection>, symbols: seq<Ptr>,
                                relocations: seq<Relocation>, log: seq<(nat, Rela)>)
  {
    k <= |relocations| && Logged(base, symbols, relocations[..k], log) && AllAlive(freed, relocations[..k])
  }

  lemma ConvertedStep(k: nat, freed: set<Ptr>, base: seq<OutputSection>, symbols: seq<Ptr>,
                      relocations: seq<Relocation>, log: seq<(nat, Rela)>, entry: (nat, Rela))
    requires k < |relocations| && ConvertedUpTo(k, freed, base, symbols, relocations, log)
    requires Alive(freed, relocations[k])
    requires EntryIs(symbols, relocations[k], entry.1) && GoesTo(base, relocations[k].target, entry.0)
    ensures ConvertedUpTo(k + 1, freed, base, symbols, relocations, log + [entry])
  {
    LoggedAppend(base, symbols, relocations, k, log, entry);
    assert relocations[..k + 1] == relocations[..k] + [relocations[k]];
  }

  lemma ConversionStops(k: nat, freed: set<Ptr>, base: seq<OutputSection>, symbols: seq<Ptr>,
                        relocations: seq<Relocation>, log: seq<(nat, Rela)>)
    requires k < |relocations| && ConvertedUpTo(k, freed, base, symbols, relocations, log)
    requires !Alive(freed, relocations[k])
    ensures FirstLost(|log|, freed, relocations) && !AllAlive(freed, relocations)
  {
    assert relocations[k] in relocations;
  }

  /**
   * Emits every relocation. The search for its section never fails; conversion goes through exactly when every
   * relocation's symbol exists, and else stops at the first whose symbol does not.
   */
  method ConvertRelocations(w: RplWriter) returns (outcome: Outcome)
    requires AllHomed(w.sections, w.file.relocations) && Linked(w.sections) && w.log == []
    requires forall r :: r in w.file.relocations ==> Ready(w.file.arena, r)
    requires Owned(w.file.arena, w.file.symbols, w.file.freed)
    modifies w`sections, w`log
    ensures !outcome.Failed?
    ensures outcome.Done? <==> AllAlive(w.file.freed, w.file.relocations)
    ensures outcome.BadPointer? ==> FirstLost(|w.log|, w.file.freed, w.file.relocations)
    ensures Filled(w.sections, old(w.sections), w.log)
    ensures outcome.Done? ==> Logged(old(w.sections), w.file.symbols, w.file.relocations, w.log)
  {
    var relocations := w.file.relocations;
    ghost var base, freed := w.sections, w.file.freed;
    for k := 0 to |relocations|
      invariant Filled(w.sections, base, w.log)
      invariant ConvertedUpTo(k, freed, base, w.file.symbols, relocations, w.log)
    {
      ghost var log := w.log;
      ghost var entry;
      outcome, entry := ConvertRelocation(w, relocations[k], base);
      if !outcome.Done? {
        ConversionStops(k, freed, base, w.file.symbols, relocations, log);
        return;
      }
      ConvertedStep(k, freed, base, w.file.symbols, relocations, log, entry);
    }
    assert relocations[..|relocations|] == relocations;
    outcome := Done;
  }

  /** One pass of the loop. */
  method ConvertRelocation(w: RplWriter, r: Relocation, ghost base: seq<OutputSection>)
    returns (outcome: Outcome, ghost entry: (nat, Rela))
    requires Homed(base, r.target) && Linked(base) && Filled(w.sections, base, w.log) && Ready(w.file.arena, r)
    requires Owned(w.file.arena, w.file.symbols, w.file.freed)
    modifies w`sections, w`log
    ensures Filled(w.sections, base, w.log)
    ensures outcome == if Alive(w.file.freed, r) then Done else BadPointer
    ensures w.log == if outcome.Done? then old(w.log) + [entry] else old(w.log)
    ensures outcome.Done? ==> EntryIs(w.file.symbols, r, entry.1) && GoesTo(base, r.target, entry.0)
  {
    ghost var home: nat :| IsFirst(base, r.target, home) && base[home].relocationSection.Some?;
    FilledFirst(w.sections, base, w.log, r.target, home);
    var found := FindSection(w.sections, r.target);
    assert found.Some? by {
      assert Contains(w.sections[home], r.target);
    }
    var i := found.value;
    assert i == home;
    assert w.sections[i] == WithEntries(base[i], EntriesOf(w.log, i));
    entry := (0, Rela(0, 0, 0));
    if w.sections[i].relocationSection.None? {
      return Failed, entry;
    }
    var v := w.sections[i].relocationSection.value;
    assert Owns(base, i, v);
    var rela := MakeEntry(w.file, r);
    if rela.None? {
      return BadPointer, entry;
    }
    FilledAppend(w.sections, base, w.log, v, rela.value);
    w.sections := w.sections[v := WithEntries(w.sections[v], [rela.value])];
    entry := (v, rela.value);
    w.log := w.log + [entry];
    return Done, entry;
  }
}
