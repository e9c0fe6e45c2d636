/**
 * The converter's symbols. The symbol list owns them; imports and relocations share them by pointer,
 * and pointers are compared. Here symbols are created in an arena and a pointer is a position there,
 * so that no position is used twice. Pruning frees symbols, and `ElfFile.freed` says which.
 */
module ElfSymbols {
  import opened Wrappers

  const LOAD_ADDRESS: nat := 0x0100_0000
  const CODE_ADDRESS: nat := 0x0200_0000
  const DATA_ADDRESS: nat := 0x1000_0000
  const WIIU_LOAD_ADDRESS: nat := 0xC000_0000

  const STT_NOTYPE: nat := 0
  const STT_OBJECT: nat := 1
  const STT_FUNC: nat := 2
  const STT_SECTION: nat := 3
  const STT_FILE: nat := 4

  const STB_LOCAL: nat := 0
  const STB_GLOBAL: nat := 1

  datatype Symbol = Symbol(name: string, address: nat, size: nat, kind: nat, binding: nat,
                           outNamePos: nat)

  type Ptr = nat

  /** Every listed pointer is a symbol of the arena. */
  ghost predicate Allocated(arena: seq<Symbol>, symbols: seq<Ptr>) {
    forall i :: 0 <= i < |symbols| ==> symbols[i] < |arena|
  }

  /** The four symbols whose indices the output hard-codes. */
  ghost predicate Reserved(arena: seq<Symbol>, symbols: seq<Ptr>) {
    && |symbols| >= 4 && Allocated(arena, symbols) && Distinct(symbols)
    && IsNull(arena[symbols[0]])
    && IsSectionBase(arena[symbols[1]], CODE_ADDRESS)
    && IsSectionBase(arena[symbols[2]], DATA_ADDRESS)
    && arena[symbols[3]].address == 0 && arena[symbols[3]].kind == STT_OBJECT
  }

  predicate IsNull(s: Symbol) {
    s.name == "" && s.address == 0 && s.kind == STT_NOTYPE
  }

  predicate IsSectionBase(s: Symbol, address: nat) {
    s.address == address && s.kind == STT_SECTION
  }

  ghost predicate Known(arena: seq<Symbol>, symbols: seq<Ptr>, address: nat)
    requires Allocated(arena, symbols)
  {
    exists i :: 0 <= i < |symbols| && arena[symbols[i]].address == address
  }

  predicate At(s: Symbol, address: nat) {
    s.address == address
  }

  predicate TypedAt(s: Symbol, address: nat) {
    s.address == address && s.kind != STT_NOTYPE
  }

  /** A named symbol without type and size, such as a linker label: pruning erases it, which destroys it. */
  predicate Prunable(s: Symbol) {
    s.name != "" && s.kind == STT_NOTYPE && s.size == 0
  }

  /** Position `i` of the list is what a search for `address` answers: the first typed symbol, else the first. */
  ghost predicate Finds(arena: seq<Symbol>, symbols: seq<Ptr>, address: nat, i: nat)
    requires Allocated(arena, symbols)
  {
    && i < |symbols| && At(arena[symbols[i]], address)
    && if TypedAt(arena[symbols[i]], address)
       then forall j :: 0 <= j < i ==> !TypedAt(arena[symbols[j]], address)
       else (forall j :: 0 <= j < |symbols| ==> !TypedAt(arena[symbols[j]], address))
            && forall j :: 0 <= j < i ==> !At(arena[symbols[j]], address)
  }

  method FindSymbol(arena: seq<Symbol>, symbols: seq<Ptr>, address: nat) returns (r: Option<Ptr>)
    requires Allocated(arena, symbols)
    ensures r.Some? <==> Known(arena, symbols, address)
    ensures r.Some? ==> exists i: nat :: Finds(arena, symbols, address, i) && symbols[i] == r.value
  {
    for i := 0 to |symbols|
      invariant forall j :: 0 <= j < i ==> !TypedAt(arena[symbols[j]], address)
    {
      if arena[symbols[i]].address == address && arena[symbols[i]].kind != STT_NOTYPE {
        assert Finds(arena, symbols, address, i);
        return Some(symbols[i]);
      }
    }
    for i := 0 to |symbols|
      invariant forall j :: 0 <= j < i ==> !At(arena[symbols[j]], address)
    {
      if arena[symbols[i]].address == address {
        assert Finds(arena, symbols, address, i);
        return Some(symbols[i]);
      }
    }
    return None;
  }

  /** A search for a section base, or for zero, always lands on a reserved symbol and never on the null one. */
  lemma ReservedLookups(arena: seq<Symbol>, symbols: seq<Ptr>, address: nat, i: nat)
    requires Reserved(arena, symbols) && Finds(arena, symbols, address, i)
    ensures address == CODE_ADDRESS ==> i == 1
    ensures address == DATA_ADDRESS ==> i == 2
    ensures address == 0 ==> i == 3
    ensures i != 0
  {
    assert TypedAt(arena[symbols[1]], CODE_ADDRESS);
    assert TypedAt(arena[symbols[2]], DATA_ADDRESS);
    assert TypedAt(arena[symbols[3]], 0);
    assert !TypedAt(arena[symbols[0]], address);
  }
}
