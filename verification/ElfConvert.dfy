/** Pruning the symbol list and turning every relocation into an output entry. */
module ElfConvert {
  import opened Words
  import opened Wrappers
  import opened ElfSymbols
  import opened ElfRead
  import opened ElfRelocs
  import opened ElfSections

  // ---------- Pruning ----------

  /** The symbols that stay, in order. */
  function Kept(arena: seq<Symbol>, symbols: seq<Ptr>): (r: seq<Ptr>)
    requires Allocated(arena, symbols)
  {
    if symbols == [] then []
    else
      var last := symbols[|symbols| - 1];
      Kept(arena, symbols[..|symbols| - 1]) + if Prunable(arena[last]) then [] else [last]
  }

  lemma {:induction false} KeptMembers(arena: seq<Symbol>, symbols: seq<Ptr>, p: Ptr)
    requires Allocated(arena, symbols)
    ensures p in Kept(arena, symbols) <==> p in symbols && !Prunable(arena[p])
    ensures |Kept(arena, symbols)| <= |symbols|
  {
    if symbols != [] {
      var init := symbols[..|symbols| - 1];
      KeptMembers(arena, init, p);
      assert symbols == init + [symbols[|symbols| - 1]];
    }
  }

  /** A symbol that stays moves down by the number of pruned ones before it, so order is preserved. */
  lemma {:induction false} KeptRank(arena: seq<Symbol>, symbols: seq<Ptr>, i: nat)
    requires Allocated(arena, symbols) && i < |symbols| && !Prunable(arena[symbols[i]])
    ensures var rank := |Kept(arena, symbols[..i])|;
            rank < |Kept(arena, symbols)| && Kept(arena, symbols)[rank] == symbols[i]
    decreases |symbols|
  {
    var init := symbols[..|symbols| - 1];
    if i < |init| {
      KeptRank(arena, init, i);
      assert init[..i] == symbols[..i];
    } else {
      assert init == symbols[..i];
    }
  }

  /** Ranks grow strictly along the symbols that stay. */
  lemma {:induction false} KeptRankGrows(arena: seq<Symbol>, symbols: seq<Ptr>, i: nat, j: nat)
    requires Allocated(arena, symbols) && i < j <= |symbols| && !Prunable(arena[symbols[i]])
    ensures |Kept(arena, symbols[..i])| < |Kept(arena, symbols[..j])|
    decreases j
  {
    assert symbols[..j][..j - 1] == symbols[..j - 1];
    if i < j - 1 {
      KeptRankGrows(arena, symbols, i, j - 1);
    }
  }

  /** When none of the first four can be pruned they keep their indices. */
  lemma KeptReserved(arena: seq<Symbol>, symbols: seq<Ptr>)
    requires Allocated(arena, symbols) && |symbols| >= 4
    requires forall i :: 0 <= i < 4 ==> !Prunable(arena[symbols[i]])
    ensures |Kept(arena, symbols)| >= 4
    ensures forall i :: 0 <= i < 4 ==> Kept(arena, symbols)[i] == symbols[i]
  {
    assert symbols[..1][..0] == symbols[..0] && symbols[..2][..1] == symbols[..1];
    assert symbols[..3][..2] == symbols[..2] && symbols[..4][..3] == symbols[..3];
    assert |Kept(arena, symbols[..0])| == 0;
    assert |Kept(arena, symbols[..1])| == 1;
    assert |Kept(arena, symbols[..2])| == 2;
    assert |Kept(arena, symbols[..3])| == 3;
    forall i | 0 <= i < 4
      ensures i < |Kept(arena, symbols)| && Kept(arena, symbols)[i] == symbols[i]
    {
      KeptRank(arena, symbols, i);
      assert i == 0 || i == 1 || i == 2 || i == 3;
    }
  }

  /** Pruning has looked at the first `seen` symbols of `before` and stands at position `i`. */
  ghost predicate PrunedUpTo(arena: seq<Symbol>, before: seq<Ptr>, symbols: seq<Ptr>, seen: nat, i: nat) {
    && Allocated(arena, before) && seen <= |before|
    && i == |Kept(arena, before[..seen])| && symbols == Kept(arena, before[..seen]) + before[seen..]
  }

  lemma PruneStep(arena: seq<Symbol>, before: seq<Ptr>, symbols: seq<Ptr>, seen: nat, i: nat)
    requires PrunedUpTo(arena, before, symbols, seen, i) && i < |symbols|
    ensures seen < |before| && symbols[i] == before[seen]
    ensures Prunable(arena[symbols[i]]) ==> PrunedUpTo(arena, before, symbols[..i] + symbols[i + 1..], seen + 1, i)
    ensures !Prunable(arena[symbols[i]]) ==> PrunedUpTo(arena, before, symbols, seen + 1, i + 1)
  {
    var kept := Kept(arena, before[..seen]);
    assert before[..seen + 1][..seen] == before[..seen];
    assert before[seen..] == [before[seen]] + before[seen + 1..];
    assert symbols[..i] == kept && symbols[i + 1..] == before[seen + 1..];
    assert symbols == kept + [before[seen]] + before[seen + 1..];
  }

  /** The list owns exactly the symbols that have not been destroyed. */
  ghost predicate Owned(arena: seq<Symbol>, symbols: seq<Ptr>, freed: set<Ptr>) {
    forall p: Ptr :: p < |arena| ==> (p in symbols <==> p !in freed)
  }

  /** Besides those destroyed earlier, exactly the prunable symbols of the list have been destroyed. */
  ghost predicate Freed(arena: seq<Symbol>, before: seq<Ptr>, freed: set<Ptr>, earlier: set<Ptr>)
    requires Allocated(arena, before)
  {
    forall p :: p in freed <==> p in earlier || (p in before && Prunable(arena[p]))
  }

  lemma FreedStep(arena: seq<Symbol>, before: seq<Ptr>, seen: nat, freed: set<Ptr>, earlier: set<Ptr>)
    requires Allocated(arena, before) && seen < |before| && Freed(arena, before[..seen], freed, earlier)
    ensures Prunable(arena[before[seen]]) ==> Freed(arena, before[..seen + 1], freed + {before[seen]}, earlier)
    ensures !Prunable(arena[before[seen]]) ==> Freed(arena, before[..seen + 1], freed, earlier)
  {
    assert before[..seen + 1] == before[..seen] + [before[seen]];
  }

  /** Both, while pruning is under way. */
  ghost predicate PruningAt(arena: seq<Symbol>, before: seq<Ptr>, symbols: seq<Ptr>, freed: set<Ptr>,
                            earlier: set<Ptr>, seen: nat, i: nat)
  {
    PrunedUpTo(arena, before, symbols, seen, i) && Freed(arena, before[..seen], freed, earlier)
  }

  lemma PruningStep(arena: seq<Symbol>, before: seq<Ptr>, symbols: seq<Ptr>, freed: set<Ptr>, earlier: set<Ptr>,
                    seen: nat, i: nat)
    requires PruningAt(arena, before, symbols, freed, earlier, seen, i) && i < |symbols|
    ensures seen < |before| && symbols[i] < |arena|
    ensures if Prunable(arena[symbols[i]])
            then PruningAt(arena, before, symbols[..i] + symbols[i + 1..], freed + {symbols[i]}, earlier, seen + 1, i)
            else PruningAt(arena, before, symbols, freed, earlier, seen + 1, i + 1)
  {
    PruneStep(arena, before, symbols, seen, i);
    FreedStep(arena, before, seen, freed, earlier);
  }

  lemma PruningEnds(arena: seq<Symbol>, before: seq<Ptr>, symbols: seq<Ptr>, freed: set<Ptr>, earlier: set<Ptr>,
                    seen: nat, i: nat)
    requires PruningAt(arena, before, symbols, freed, earlier, seen, i) && i >= |symbols|
    ensures symbols == Kept(arena, before) && Freed(arena, before, freed, earlier)
  {
    assert before[..seen] == before;
  }

  /** Once every symbol has been listed, pruning leaves the list owning exactly those that are not destroyed. */
  lemma PrunedOwns(arena: seq<Symbol>, before: seq<Ptr>, freed: set<Ptr>)
    requires Allocated(arena, before) && Freed(arena, before, freed, {})
    requires forall p :: 0 <= p < |arena| ==> p in before
    ensures Owned(arena, Kept(arena, before), freed)
    ensures forall p: Ptr :: p < |arena| ==> (p in freed <==> Prunable(arena[p]))
  {
    forall p: Ptr | p < |arena|
      ensures p in Kept(arena, before) <==> p !in freed
    {
      KeptMembers(arena, before, p);
    }
  }

  /** Erases symbols in place, stepping only past those that stay; what is erased is destroyed. */
  method PruneSymbols(file: ElfFile)
    requires Allocated(file.arena, file.symbols)
    modifies file`symbols, file`freed
    ensures file.symbols == Kept(file.arena, old(file.symbols))
    ensures Freed(file.arena, old(file.symbols), file.freed, old(file.freed))
  {
    var i := 0;
    ghost var seen := 0;
    ghost var before, earlier := file.symbols, file.freed;
    assert before[0..] == before && before[..0] == [];
    while i < |file.symbols|
      invariant PruningAt(file.arena, before, file.symbols, file.freed, earlier, seen, i)
      decreases |before| - seen
    {
      PruningStep(file.arena, before, file.symbols, file.freed, earlier, seen, i);
      var symbol := file.arena[file.symbols[i]];
      if symbol.name != "" && symbol.kind == STT_NOTYPE && symbol.size == 0 {
        file.freed := file.freed + {file.symbols[i]};
        file.symbols := file.symbols[..i] + file.symbols[i + 1..];
      } else {
        i := i + 1;
      }
      seen := seen + 1;
    }
    PruningEnds(file.arena, before, file.symbols, file.freed, earlier, seen, i);
  }

  // ---------- Conversion ----------

  /** RELATIVE is written as a plain 32-bit address relocation. */
  function OutKind(kind: nat): nat {
    if kind == R_PPC_RELATIVE then R_PPC_ADDR32 else kind
  }

  /** The type byte and the symbol index above it, as stored in a word. */
  function Info(kind: nat, index: nat): nat {
    Wrap32(OutKind(kind) + index * 256)
  }

  /** The first position of a symbol in the list; a null pointer is nowhere. */
  function IndexOf(symbols: seq<Ptr>, p: Option<Ptr>): (r: Option<nat>)
    ensures r.Some? ==> r.value < |symbols| && Some(symbols[r.value]) == p
    ensures r.None? <==> p.None? || p.value !in symbols
  {
    if symbols == [] then None
    else if Some(symbols[0]) == p then Some(0)
    else
      var rest := IndexOf(symbols[1..], p);
      if rest.Some? then Some(rest.value + 1) else None
  }

  /** The entry for a relocation whose symbol is listed. */
  function Entry(symbols: seq<Ptr>, r: Relocation): Option<Rela>
    requires r.addend < TWO_TO_32
  {
    var index := IndexOf(symbols, r.symbol);
    if index.Some? then Some(Rela(r.target, Info(r.kind, index.value), ToInt32(r.addend))) else None
  }

  /** The entry the program goes on to write for a symbol that is not listed, by the word it reads as its address. */
  function Fallback(r: Relocation, read: nat): Option<Rela> {
    if CODE_ADDRESS <= read < DATA_ADDRESS then
      Some(Rela(r.target, Info(r.kind, 1), ToInt32(read - CODE_ADDRESS)))
    else if DATA_ADDRESS <= read < WIIU_LOAD_ADDRESS then
      Some(Rela(r.target, Info(r.kind, 2), ToInt32(read - DATA_ADDRESS)))
    else None
  }

  /** The address a relocation means once the slots are laid out. */
  predicate Denotes(arena: seq<Symbol>, m: Meaning, address: nat) {
    match m
    case Slot(stub) => stub < |arena| && arena[stub].address == address
    case Place(a) => a == address
    case Label(a) => a == address
    case Nothing => false
  }

  /** The type byte is 1 for a relocation of type 22, and that of the relocation otherwise. */
  predicate TypeKept(rela: Rela, kind: nat) {
    rela.info % 256 == if kind == 22 then 1 else kind
  }

  /** The entry means what the input relocation meant: same place, same type, same address. */
  ghost predicate Emits(arena: seq<Symbol>, symbols: seq<Ptr>, rela: Rela, e: Expect) {
    && Allocated(arena, symbols)
    && rela.offset == e.target && TypeKept(rela, e.kind)
    && rela.info / 256 < |symbols|
    && Denotes(arena, e.meaning, Wrap32(arena[symbols[rela.info / 256]].address + rela.addend))
  }

  /** The list that conversion indexes: a pruned one whose bases and stubs are in place. */
  ghost predicate Pruned(n: nat, stubs: nat, arena: seq<Symbol>, symbols: seq<Ptr>) {
    && 4 <= stubs <= n <= |arena| && Allocated(arena, symbols)
    && 4 <= |symbols| <= 0x100_0000
    && symbols[1] == 1 && symbols[2] == 2
    && arena[1].address == CODE_ADDRESS && arena[2].address == DATA_ADDRESS
    && (forall p :: stubs <= p < n ==> p in symbols && arena[p].address < TWO_TO_32)
  }

  /** Words of the relocations fit their fields. */
  predicate Fits(e: Expect) {
    e.kind < 256 && (e.meaning.Place? || e.meaning.Label? ==> e.meaning.address < TWO_TO_32)
  }

  ghost predicate AllFit(es: seq<Expect>) {
    forall e :: e in es ==> Fits(e)
  }

  lemma InfoParts(kind: nat, index: nat)
    requires kind < 256 && index < 0x100_0000
    ensures Info(kind, index) % 256 == (if kind == 22 then 1 else kind) && Info(kind, index) / 256 == index
  {
  }

  /** The type byte is in place however far the index above it reaches. */
  lemma InfoType(kind: nat, index: nat)
    requires kind < 256
    ensures Info(kind, index) % 256 == if kind == 22 then 1 else kind
  {
    var byte := OutKind(kind);
    LowByte(byte + index * 256);
    ByteBelow(byte, index);
  }

  lemma LowByte(x: nat)
    ensures Wrap32(x) % 256 == x % 256
  {
    var turns := x / 0x1_0000_0000;
    ByteBelow(Wrap32(x), turns * 0x100_0000);
    assert Wrap32(x) + turns * 0x100_0000 * 256 == x;
  }

  lemma ByteBelow(low: nat, high: nat)
    ensures (low + high * 256) % 256 == low % 256
  {
  }

  /** An address is recovered from a base and the signed reading of its distance. */
  lemma BasePlusDistance(base: nat, distance: nat)
    requires base + distance < TWO_TO_32
    ensures Wrap32(base + ToInt32(distance)) == base + distance
  {
  }

  lemma AddendFits(before: seq<Symbol>, stubs: nat, r: Relocation, e: Expect)
    requires StandsFor(before, stubs, r, e) && Fits(e)
    ensures r.addend < TWO_TO_32
  {
  }

  /**
   * The heart of the conversion: the value of the output symbol an entry indexes plus the entry's addend is
   * what the relocation meant, whatever moved since it was read.
   */
  lemma EntryKeepsMeaning(n: nat, stubs: nat, before: seq<Symbol>, arena: seq<Symbol>, symbols: seq<Ptr>,
                          r: Relocation, e: Expect)
    requires Pruned(n, stubs, arena, symbols) && |before| == n && Fits(e)
    requires StandsFor(before, stubs, r, e) && r.symbol.Some? && r.symbol.value in symbols
    requires forall p :: 0 <= p < stubs ==> arena[p].address == before[p].address
    ensures r.addend < TWO_TO_32 && Entry(symbols, r).Some?
    ensures Emits(arena, symbols, Entry(symbols, r).value, e)
  {
    var index := IndexOf(symbols, r.symbol).value;
    InfoParts(r.kind, index);
    if !e.meaning.Slot? {
      BasePlusDistance(arena[r.symbol.value].address, r.addend);
    }
  }

  /**
   * What the program writes after reading a destroyed symbol means what it should exactly when the word it
   * reads there still is the symbol's address.
   */
  lemma FallbackKeepsMeaning(n: nat, stubs: nat, before: seq<Symbol>, arena: seq<Symbol>, symbols: seq<Ptr>,
                             r: Relocation, e: Expect, read: nat)
    requires Pruned(n, stubs, arena, symbols) && Fits(e) && StandsFor(before, stubs, r, e) && e.meaning.Label?
    requires Fallback(r, read).Some?
    ensures Emits(arena, symbols, Fallback(r, read).value, e) <==> read == e.meaning.address
  {
    InfoParts(r.kind, 1);
    InfoParts(r.kind, 2);
    if read < DATA_ADDRESS {
      BasePlusDistance(CODE_ADDRESS, read - CODE_ADDRESS);
    } else {
      BasePlusDistance(DATA_ADDRESS, read - DATA_ADDRESS);
    }
  }
}
