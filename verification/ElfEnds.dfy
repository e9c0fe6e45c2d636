/** How a conversion ends, by what the stages do and in terms of the input. */
module ElfEnds {
  import opened ElfSymbols
  import opened ElfRead
  import opened ElfRelocs
  import opened ElfSections
  import opened ElfRelaSections
  import opened ElfInput
  import opened ElfCarried

  // ---------- By what the stages do ----------

  /** A section is found for every target. */
  ghost predicate AllTargetsReach(data: seq<DataSection>, es: seq<Expect>) {
    forall k :: 0 <= k < |es| ==> Reaches(data, k, es[k].target)
  }

  /** A symbol of the table that will not be pruned is at the greatest address. */
  ghost predicate SymbolStranded(imports: seq<RplImport>, table: seq<InSymbol>) {
    var kept := KeptSymbols(table);
    exists j :: 0 <= j < |kept| && kept[j].value == UNSET && !IsPruned(imports, kept, j)
  }

  /** A symbol that will not be pruned, or an input section and so its symbol, is at the greatest address. */
  ghost predicate Stranded(imports: seq<RplImport>, table: seq<InSymbol>, data: seq<DataSection>) {
    SymbolStranded(imports, table) || exists d :: 0 <= d < |data| && data[d].address == UNSET
  }

  /** The addend of the relocation leads to a label, and to no import. */
  predicate LeadsToLabel(imports: seq<RplImport>, table: seq<InSymbol>, addend: nat) {
    FirstImport(imports, addend).None? && addend in LabelAddresses(table)
  }

  /** No static relocation leads to a label. */
  ghost predicate StaticHolds(imports: seq<RplImport>, table: seq<InSymbol>, relas: seq<InRela>) {
    forall i :: 0 <= i < |relas| ==> !LeadsToLabel(imports, table, relas[i].addend)
  }

  /** No loader relocation that is kept names a symbol or leads to a label. */
  ghost predicate DynHolds(imports: seq<RplImport>, table: seq<InSymbol>, relas: seq<DynRela>) {
    forall i :: 0 <= i < |relas| && KeepsDyn(relas[i]) ==>
      relas[i].index == 0 && !LeadsToLabel(imports, table, relas[i].addend)
  }

  /** Every symbol pointer of a relocation will lead to a symbol when it is used. */
  ghost predicate PointersHold(imports: seq<RplImport>, input: Input) {
    StaticHolds(imports, input.Table(), input.relas) && DynHolds(imports, input.Table(), input.dyn)
  }

  /**
   * How a conversion ends: as reading does, or else as writing does. Writing fails where no section is found for some
   * target, reads a destroyed symbol or a null pointer where a relocation's pointer does not lead to a symbol, and
   * fails where no section is found for some symbol, in this order.
   */
  ghost function ConversionEnds(imports: seq<RplImport>, input: Input): Outcome {
    if ReadingEnds(imports, input) != Done then ReadingEnds(imports, input)
    else if !AllTargetsReach(input.data, AllExpected(imports, input)) then Failed
    else if !PointersHold(imports, input) then BadPointer
    else if Stranded(imports, input.Table(), input.data) then Failed
    else Done
  }

  // ---------- In terms of the input ----------

  /** Some symbol has this address: one of the reserved three, or an entry of the table. */
  ghost predicate Addressed(input: Input, a: nat) {
    || a == 0 || a == 0x0200_0000 || a == 0x1000_0000
    || exists s :: s in input.Table() && Listed(s) && s.value == a
  }

  /** Stub word `i` of library `l` is missing, or holds no symbol's address. */
  ghost predicate StubBroken(input: Input, l: nat, i: nat) {
    l < |input.defs| &&
    var a := input.defs[l].stubStart + 4 * i;
    a < input.defs[l].stubEnd && !(a in input.word && Addressed(input, input.word[a]))
  }

  /** A reference to the text section from outside the text. */
  predicate OutOfText(r: InRela) {
    r.symKind == 3 && r.symValue == 0x0200_0000 && !(0x0200_0000 <= r.offset < 0x1000_0000)
  }

  /** The relocation is not carried over, and where it is to be patched there is no data. */
  ghost predicate Unmapped(input: Input, r: InRela) {
    !Carried(input, r.addend) && r.offset !in input.mapped
  }

  /** The first static relocation to be out of its place or unmapped is out of its place. */
  ghost predicate OutOfTextFirst(input: Input, i: nat) {
    && i < |input.relas| && OutOfText(input.relas[i])
    && forall j :: 0 <= j < i ==> !OutOfText(input.relas[j]) && !Unmapped(input, input.relas[j])
  }

  /** Only relocations of type 22 are taken from the loader's, apart from padding, and only if they are carried. */
  ghost predicate DynRefused(input: Input, r: DynRela) {
    r.kind != 0 && (r.kind != 22 || (r.index == 0 && !Carried(input, r.addend)))
  }

  ghost predicate InSection(input: Input, a: nat) {
    exists d :: 0 <= d < |input.data| &&
                input.data[d].address <= a < (input.data[d].address + input.data[d].size) % 0x1_0000_0000
  }

  /** A section is found for the target of an entry, with so many in front of it. */
  ghost predicate FindsSection(input: Input, before: nat, a: nat) {
    InSection(input, a) || (before > 0 && a < 0xFFFF_FFFF)
  }

  ghost predicate StaticLost(input: Input, i: nat) {
    && i < |input.relas| && Carried(input, input.relas[i].addend)
    && !FindsSection(input, CarriedBefore(input, i), input.relas[i].offset)
  }

  ghost predicate DynLost(input: Input, i: nat) {
    && i < |input.dyn| && CarriedDyn(input.dyn[i])
    && !FindsSection(input, CarriedBefore(input, |input.relas|) + CarriedDynBefore(input, i), input.dyn[i].offset)
  }

  /** Entry `j` of the table is read, is the first such at its address, and none there has a type. */
  predicate FirstUntyped(table: seq<InSymbol>, j: nat) {
    && j < |table| && Listed(table[j])
    && table[j].value != 0 && table[j].value != 0x0200_0000 && table[j].value != 0x1000_0000
    && (forall i :: 0 <= i < j && Listed(table[i]) ==> table[i].value != table[j].value)
    && forall s :: s in table && Listed(s) && s.value == table[j].value ==> s.info % 16 == 0
  }

  /** A search for the address answers a named entry without type and size. */
  ghost predicate LabelAt(input: Input, a: nat) {
    var table := input.Table();
    exists j: nat :: FirstUntyped(table, j) && table[j].value == a && table[j].name != "" && table[j].size == 0
  }

  ghost predicate StaticLeadsAstray(input: Input, i: nat) {
    i < |input.relas| && BelongsNowhere(input, input.relas[i].addend) && LabelAt(input, input.relas[i].addend)
  }

  ghost predicate DynLeadsAstray(input: Input, i: nat) {
    && i < |input.dyn| && CarriedDyn(input.dyn[i])
    && (input.dyn[i].index != 0 ||
        (BelongsNowhere(input, input.dyn[i].addend) && LabelAt(input, input.dyn[i].addend)))
  }

  /** Stub word `i` of library `l` holds this address. */
  predicate StubIs(input: Input, l: nat, i: nat, a: nat) {
    l < |input.defs| &&
    var stub := input.defs[l].stubStart + 4 * i;
    stub < input.defs[l].stubEnd && stub in input.word && input.word[stub] == a
  }

  ghost predicate StubHolds(input: Input, a: nat) {
    exists l: nat, i: nat :: StubIs(input, l, i, a)
  }

  /** Entry `j` of the table is erased: it has no type and no size, and has a name or is given one by an import. */
  ghost predicate Erased(input: Input, j: nat) {
    var table := input.Table();
    && j < |table| && table[j].info % 16 == 0 && table[j].size == 0
    && (table[j].name != "" || (FirstUntyped(table, j) && StubHolds(input, table[j].value)))
  }

  /** An entry that is not erased is at the greatest address. */
  ghost predicate EntryStranded(input: Input, j: nat) {
    var table := input.Table();
    j < |table| && Listed(table[j]) && table[j].value == 0xFFFF_FFFF && !Erased(input, j)
  }

  /** How the conversion of this input ends. */
  ghost function EndsAs(input: Input): Outcome {
    if exists t :: t in input.symTabs && t.name != ".symtab" then Failed
    else if exists l: nat, i: nat :: StubBroken(input, l, i) then BadPointer
    else if exists i: nat :: OutOfTextFirst(input, i) then Failed
    else if SomeInTrouble(input) then BadPointer
    else if SomeRefused(input) then Failed
    else if SomeLost(input) then Failed
    else if SomeAstray(input) then BadPointer
    else if SomeStranded(input) then Failed
    else Done
  }

  ghost predicate SomeInTrouble(input: Input) {
    exists r :: r in input.relas && (OutOfText(r) || Unmapped(input, r))
  }

  ghost predicate SomeRefused(input: Input) {
    exists r :: r in input.dyn && DynRefused(input, r)
  }

  ghost predicate SomeLost(input: Input) {
    (exists i: nat :: StaticLost(input, i)) || exists i: nat :: DynLost(input, i)
  }

  ghost predicate SomeAstray(input: Input) {
    (exists i: nat :: StaticLeadsAstray(input, i)) || exists i: nat :: DynLeadsAstray(input, i)
  }

  ghost predicate SomeStranded(input: Input) {
    (exists j: nat :: EntryStranded(input, j)) || exists d :: d in input.data && d.address == 0xFFFF_FFFF
  }

  lemma KnownIsAddressed(input: Input, a: nat)
    ensures a in KnownAddresses(input.Table()).listed <==> Addressed(input, a)
  {
    KeptAreListed(input.Table());
  }

  lemma StubIndex(def: LibDef, a: nat) returns (i: nat)
    requires IsStubWord(def, a)
    ensures a == def.stubStart + 4 * i
  {
    i := (a - def.stubStart) / 4;
  }

  lemma StubWordIs(input: Input, l: nat, i: nat)
    requires l < |input.defs|
    ensures var a := input.defs[l].stubStart + 4 * i;
            StubBroken(input, l, i) <==>
            IsStubWord(input.defs[l], a) &&
            !(a in input.word && input.word[a] in KnownAddresses(input.Table()).listed)
  {
    var a := input.defs[l].stubStart + 4 * i;
    if a in input.word {
      KnownIsAddressed(input, input.word[a]);
    }
  }

  lemma StubsByIndex(input: Input)
    ensures StubsLead(input) <==> !exists l: nat, i: nat :: StubBroken(input, l, i)
  {
    if l: nat, i: nat :| StubBroken(input, l, i) {
      StubWordIs(input, l, i);
    }
    if !StubsLead(input) {
      var l: nat, a: nat :| l < |input.defs| && IsStubWord(input.defs[l], a) &&
                            !(a in input.word && input.word[a] in KnownAddresses(input.Table()).listed);
      var i := StubIndex(input.defs[l], a);
      StubWordIs(input, l, i);
    }
  }

  // ---------- Static relocations ----------

  lemma OffendsByInput(libs: seq<Library>, input: Input, r: InRela)
    requires LibrariesOf(libs, input)
    ensures Misplaced(r) <==> OutOfText(r)
    ensures PatchesNull(AllImports(libs), KnownAddresses(input.Table()), input.mapped, r) <==> Unmapped(input, r)
  {
    AddendMeans(libs, input, r.addend);
  }

  lemma NoneOffendsByInput(libs: seq<Library>, input: Input, n: nat)
    requires LibrariesOf(libs, input) && n <= |input.relas|
    ensures NoneOffends(AllImports(libs), KnownAddresses(input.Table()), input.mapped, input.relas[..n]) <==>
            forall j :: 0 <= j < n ==> !OutOfText(input.relas[j]) && !Unmapped(input, input.relas[j])
  {
    forall j | 0 <= j < n
      ensures Misplaced(input.relas[..n][j]) <==> OutOfText(input.relas[j])
      ensures PatchesNull(AllImports(libs), KnownAddresses(input.Table()), input.mapped, input.relas[..n][j]) <==>
              Unmapped(input, input.relas[j])
    {
      OffendsByInput(libs, input, input.relas[j]);
    }
  }

  lemma StaticEnds(libs: seq<Library>, input: Input)
    requires LibrariesOf(libs, input)
    ensures var imports, known := AllImports(libs), KnownAddresses(input.Table());
            && (MisplacedFirst(imports, known, input.mapped, input.relas) <==>
                exists i: nat :: OutOfTextFirst(input, i))
            && (NoneOffends(imports, known, input.mapped, input.relas) <==> !SomeInTrouble(input))
  {
    forall n: nat | n <= |input.relas|
      ensures NoneOffends(AllImports(libs), KnownAddresses(input.Table()), input.mapped, input.relas[..n]) <==>
              forall j :: 0 <= j < n ==> !OutOfText(input.relas[j]) && !Unmapped(input, input.relas[j])
    {
      NoneOffendsByInput(libs, input, n);
    }
    assert input.relas[..|input.relas|] == input.relas;
    MisplacedByInput(libs, input);
  }

  lemma MisplacedByInput(libs: seq<Library>, input: Input)
    requires LibrariesOf(libs, input)
    ensures MisplacedFirst(AllImports(libs), KnownAddresses(input.Table()), input.mapped, input.relas) <==>
            exists i: nat :: OutOfTextFirst(input, i)
  {
    var imports, known := AllImports(libs), KnownAddresses(input.Table());
    if MisplacedFirst(imports, known, input.mapped, input.relas) {
      var i: nat :| i < |input.relas| && Misplaced(input.relas[i]) &&
                    NoneOffends(imports, known, input.mapped, input.relas[..i]);
      NoneOffendsByInput(libs, input, i);
      assert OutOfTextFirst(input, i);
    }
    if i: nat :| OutOfTextFirst(input, i) {
      NoneOffendsByInput(libs, input, i);
      assert Misplaced(input.relas[i]);
    }
  }

  // ---------- Loader relocations ----------

  lemma DynEnds(libs: seq<Library>, input: Input)
    requires LibrariesOf(libs, input)
    ensures DynReadable(AllImports(libs), KnownAddresses(input.Table()), input.dyn) <==>
            !SomeRefused(input)
  {
    forall i | 0 <= i < |input.dyn|
      ensures DynAccepted(AllImports(libs), KnownAddresses(input.Table()), input.dyn[i]) <==>
              !DynRefused(input, input.dyn[i])
    {
      AddendMeans(libs, input, input.dyn[i].addend);
    }
  }

  // ---------- Targets ----------

  lemma ReachesByInput(input: Input, k: nat, target: nat)
    ensures Reaches(input.data, k, target) <==> FindsSection(input, k, target)
  {
  }

  /** Expectations behind so many others find their sections. */
  ghost predicate ReachBehind(input: Input, front: nat, es: seq<Expect>) {
    forall k :: 0 <= k < |es| ==> FindsSection(input, front + k, es[k].target)
  }

  lemma TargetsAppend(input: Input, front: nat, es: seq<Expect>, e: Expect)
    ensures ReachBehind(input, front, es + [e]) <==>
            ReachBehind(input, front, es) && FindsSection(input, front + |es|, e.target)
  {
    var more := es + [e];
    assert more[|es|] == e && forall k :: 0 <= k < |es| ==> more[k] == es[k];
  }

  lemma TargetsConcat(input: Input, a: seq<Expect>, b: seq<Expect>)
    ensures AllTargetsReach(input.data, a + b) <==> ReachBehind(input, 0, a) && ReachBehind(input, |a|, b)
  {
    var both := a + b;
    assert forall k :: 0 <= k < |a| ==> both[k] == a[k];
    assert forall k :: 0 <= k < |b| ==> both[|a| + k] == b[k];
    forall k | 0 <= k < |both|
      ensures Reaches(input.data, k, both[k].target) <==> FindsSection(input, k, both[k].target)
    {
      ReachesByInput(input, k, both[k].target);
    }
    if AllTargetsReach(input.data, both) {
      forall k | 0 <= k < |b|
        ensures FindsSection(input, |a| + k, b[k].target)
      {
        assert Reaches(input.data, |a| + k, both[|a| + k].target);
      }
    }
  }

  ghost predicate NoneLost(input: Input, n: nat) {
    forall i: nat :: i < n ==> !StaticLost(input, i)
  }

  /** The expectations so far find their sections exactly when the relocations they come from do. */
  lemma {:induction false} StaticTargets(libs: seq<Library>, input: Input, n: nat, es: seq<Expect>)
    requires LibrariesOf(libs, input) && n <= |input.relas|
    requires es == Expected(AllImports(libs), KnownAddresses(input.Table()), input.relas[..n])
    ensures |es| == CarriedBefore(input, n) && (ReachBehind(input, 0, es) <==> NoneLost(input, n))
    decreases n
  {
    if n > 0 {
      var before := Expected(AllImports(libs), KnownAddresses(input.Table()), input.relas[..n - 1]);
      StaticTargets(libs, input, n - 1, before);
      StaticExpected(libs, input, n - 1, before, es);
      StaticTargetStep(input, n - 1, before, es);
    }
  }

  lemma StaticTargetStep(input: Input, i: nat, before: seq<Expect>, es: seq<Expect>)
    requires i < |input.relas| && |before| == CarriedBefore(input, i)
    requires ReachBehind(input, 0, before) <==> NoneLost(input, i)
    requires if Carried(input, input.relas[i].addend)
             then |es| == |before| + 1 && es[..|before|] == before && es[|before|].target == input.relas[i].offset
             else es == before
    ensures |es| == CarriedBefore(input, i + 1) && (ReachBehind(input, 0, es) <==> NoneLost(input, i + 1))
  {
    assert NoneLost(input, i + 1) <==> NoneLost(input, i) && !StaticLost(input, i);
    if Carried(input, input.relas[i].addend) {
      assert es == before + [es[|before|]];
      TargetsAppend(input, 0, before, es[|before|]);
    }
  }

  ghost predicate NoneDynLost(input: Input, n: nat) {
    forall i: nat :: i < n ==> !DynLost(input, i)
  }

  lemma {:induction false} DynTargets(libs: seq<Library>, input: Input, n: nat, front: nat, es: seq<Expect>)
    requires LibrariesOf(libs, input) && n <= |input.dyn| && front == CarriedBefore(input, |input.relas|)
    requires DynReadable(AllImports(libs), KnownAddresses(input.Table()), input.dyn)
    requires es == ExpectedDyn(AllImports(libs), KnownAddresses(input.Table()), input.dyn[..n])
    ensures |es| == CarriedDynBefore(input, n) && (ReachBehind(input, front, es) <==> NoneDynLost(input, n))
    decreases n
  {
    if n > 0 {
      var before := ExpectedDyn(AllImports(libs), KnownAddresses(input.Table()), input.dyn[..n - 1]);
      DynTargets(libs, input, n - 1, front, before);
      DynExpected(libs, input, n - 1, before, es);
      DynTargetStep(input, n - 1, front, before, es);
    }
  }

  lemma DynTargetStep(input: Input, i: nat, front: nat, before: seq<Expect>, es: seq<Expect>)
    requires i < |input.dyn| && |before| == CarriedDynBefore(input, i)
    requires front == CarriedBefore(input, |input.relas|)
    requires ReachBehind(input, front, before) <==> NoneDynLost(input, i)
    requires if CarriedDyn(input.dyn[i])
             then |es| == |before| + 1 && es[..|before|] == before && es[|before|].target == input.dyn[i].offset
             else es == before
    ensures |es| == CarriedDynBefore(input, i + 1) && (ReachBehind(input, front, es) <==> NoneDynLost(input, i + 1))
  {
    assert NoneDynLost(input, i + 1) <==> NoneDynLost(input, i) && !DynLost(input, i);
    if CarriedDyn(input.dyn[i]) {
      assert es == before + [es[|before|]];
      TargetsAppend(input, front, before, es[|before|]);
    }
  }

  lemma TargetsEnd(libs: seq<Library>, input: Input)
    requires LibrariesOf(libs, input) && DynReadable(AllImports(libs), KnownAddresses(input.Table()), input.dyn)
    ensures AllTargetsReach(input.data, AllExpected(AllImports(libs), input)) <==>
            !SomeLost(input)
  {
    var imports, known := AllImports(libs), KnownAddresses(input.Table());
    var es, dyn := Expected(imports, known, input.relas), ExpectedDyn(imports, known, input.dyn);
    assert input.relas[..|input.relas|] == input.relas && input.dyn[..|input.dyn|] == input.dyn;
    StaticTargets(libs, input, |input.relas|, es);
    DynTargets(libs, input, |input.dyn|, |es|, dyn);
    TargetsConcat(input, es, dyn);
  }

  // ---------- Labels ----------

  /** Entry `i` of the table is the one behind those that are kept in front of it. */
  lemma {:induction false} KeptAt(table: seq<InSymbol>, i: nat) returns (j: nat)
    requires i < |table| && Listed(table[i])
    ensures j < |KeptSymbols(table)| && KeptSymbols(table)[j] == table[i]
    ensures KeptSymbols(table)[..j] == KeptSymbols(table[..i])
    decreases |table|
  {
    var init := table[..|table| - 1];
    if i == |table| - 1 {
      j := |KeptSymbols(init)|;
    } else {
      j := KeptAt(init, i);
      assert init[..i] == table[..i];
    }
  }

  lemma {:induction false} KeptFrom(table: seq<InSymbol>, j: nat) returns (i: nat)
    requires j < |KeptSymbols(table)|
    ensures i < |table| && Listed(table[i]) && KeptSymbols(table)[j] == table[i]
    ensures KeptSymbols(table)[..j] == KeptSymbols(table[..i])
    decreases |table|
  {
    var init := table[..|table| - 1];
    if j == |KeptSymbols(init)| {
      i := |init|;
    } else {
      i := KeptFrom(init, j);
      assert init[..i] == table[..i];
    }
  }

  /** Being first and untyped is the same among all entries and among the kept ones. */
  lemma SameFirst(table: seq<InSymbol>, i: nat, j: nat)
    requires i < |table| && Listed(table[i]) && j < |KeptSymbols(table)| && KeptSymbols(table)[j] == table[i]
    requires KeptSymbols(table)[..j] == KeptSymbols(table[..i])
    ensures FirstUntyped(table, i) <==> AnswersUntyped(KeptSymbols(table), j)
  {
    var kept, a := KeptSymbols(table), table[i].value;
    KeptAreListed(table);
    KeptAreListed(table[..i]);
    if FirstUntyped(table, i) {
      forall k | 0 <= k < j
        ensures kept[k].value != a
      {
        assert kept[..j][k] in table[..i];
      }
      assert forall k :: 0 <= k < |kept| ==> kept[k] in table;
    }
    if AnswersUntyped(kept, j) {
      forall k | 0 <= k < i && Listed(table[k])
        ensures table[k].value != a
      {
        assert table[..i][k] in kept[..j];
      }
      forall s | s in table && Listed(s) && s.value == a
        ensures s.info % 16 == 0
      {
        assert s in kept;
      }
    }
  }

  lemma LabelsByInput(input: Input, a: nat)
    ensures a in LabelAddresses(input.Table()) <==> LabelAt(input, a)
  {
    var table := input.Table();
    if a in LabelAddresses(table) {
      var j: nat :| j < |KeptSymbols(table)| && AnswersLabel(KeptSymbols(table), j) && KeptSymbols(table)[j].value == a;
      var i := KeptFrom(table, j);
      SameFirst(table, i, j);
    }
    if LabelAt(input, a) {
      var i: nat :| FirstUntyped(table, i) && table[i].value == a && table[i].name != "" && table[i].size == 0;
      var j := KeptAt(table, i);
      SameFirst(table, i, j);
      assert AnswersLabel(KeptSymbols(table), j);
    }
  }

  lemma NowhereByImports(libs: seq<Library>, input: Input, a: nat)
    requires LibrariesOf(libs, input)
    ensures FirstImport(AllImports(libs), a).None? <==> BelongsNowhere(input, a)
  {
    forall l: nat, i: nat
      ensures ImportHit(libs, l, i, a) <==> BelongsTo(input, l, i, a)
    {
      HitsAreInput(libs, input, l, i, a);
    }
    if FirstImport(AllImports(libs), a).Some? {
      var l, i := FirstPosition(libs, a);
      assert BelongsTo(input, l, i, a);
    } else {
      NoHits(libs, a);
    }
  }

  lemma LeadsByInput(libs: seq<Library>, input: Input, a: nat)
    requires LibrariesOf(libs, input)
    ensures LeadsToLabel(AllImports(libs), input.Table(), a) <==> BelongsNowhere(input, a) && LabelAt(input, a)
  {
    LabelsByInput(input, a);
    NowhereByImports(libs, input, a);
  }

  lemma PointersEnd(libs: seq<Library>, input: Input)
    requires LibrariesOf(libs, input)
    ensures PointersHold(AllImports(libs), input) <==>
            !SomeAstray(input)
  {
    forall i: nat | i < |input.relas|
      ensures LeadsToLabel(AllImports(libs), input.Table(), input.relas[i].addend) <==> StaticLeadsAstray(input, i)
    {
      LeadsByInput(libs, input, input.relas[i].addend);
    }
    forall i: nat | i < |input.dyn|
      ensures KeepsDyn(input.dyn[i]) &&
                (input.dyn[i].index != 0 || LeadsToLabel(AllImports(libs), input.Table(), input.dyn[i].addend)) <==>
              DynLeadsAstray(input, i)
    {
      LeadsByInput(libs, input, input.dyn[i].addend);
    }
  }

  // ---------- Stranded symbols ----------

  /** Where an import of the list comes from. */
  lemma {:induction false} PlaceOf(libs: seq<Library>, imp: RplImport) returns (l: nat, i: nat)
    requires imp in AllImports(libs)
    ensures l < |libs| && i < |libs[l].imports| && libs[l].imports[i] == imp
  {
    var init := libs[..|libs| - 1];
    if imp in AllImports(init) {
      l, i := PlaceOf(init, imp);
    } else {
      l := |init|;
      i :| i < |libs[l].imports| && libs[l].imports[i] == imp;
    }
  }

  lemma {:induction false} PlaceIsListed(libs: seq<Library>, l: nat, i: nat)
    requires l < |libs| && i < |libs[l].imports|
    ensures libs[l].imports[i] in AllImports(libs)
    decreases |libs|
  {
    if l < |libs| - 1 {
      PlaceIsListed(libs[..|libs| - 1], l, i);
    }
  }

  lemma HoldsByImports(libs: seq<Library>, input: Input, a: nat)
    requires LibrariesOf(libs, input)
    ensures (exists imp :: imp in AllImports(libs) && imp.trampAddr == a) <==> StubHolds(input, a)
  {
    if imp :| imp in AllImports(libs) && imp.trampAddr == a {
      var l, i := PlaceOf(libs, imp);
      assert ImportsFrom(libs[l], input.defs[l], input.word);
      CountIs(input.defs[l], i);
      assert StubIs(input, l, i, a);
    }
    if l: nat, i: nat :| StubIs(input, l, i, a) {
      assert ImportsFrom(libs[l], input.defs[l], input.word);
      CountIs(input.defs[l], i);
      PlaceIsListed(libs, l, i);
      assert libs[l].imports[i].trampAddr == a;
    }
  }

  lemma ErasedByInput(libs: seq<Library>, input: Input, i: nat, j: nat)
    requires LibrariesOf(libs, input) && i < |input.Table()| && Listed(input.Table()[i])
    requires j < |KeptSymbols(input.Table())| && KeptSymbols(input.Table())[j] == input.Table()[i]
    requires KeptSymbols(input.Table())[..j] == KeptSymbols(input.Table()[..i])
    ensures IsPruned(AllImports(libs), KeptSymbols(input.Table()), j) <==> Erased(input, i)
  {
    SameFirst(input.Table(), i, j);
    HoldsByImports(libs, input, input.Table()[i].value);
  }

  lemma StrandedEnd(libs: seq<Library>, input: Input)
    requires LibrariesOf(libs, input)
    ensures Stranded(AllImports(libs), input.Table(), input.data) <==> SomeStranded(input)
  {
    var imports, table := AllImports(libs), input.Table();
    if SymbolStranded(imports, table) {
      var j: nat :| j < |KeptSymbols(table)| && KeptSymbols(table)[j].value == UNSET &&
                    !IsPruned(imports, KeptSymbols(table), j);
      var i := KeptFrom(table, j);
      ErasedByInput(libs, input, i, j);
      assert EntryStranded(input, i);
    }
    if i: nat :| EntryStranded(input, i) {
      var j := KeptAt(table, i);
      ErasedByInput(libs, input, i, j);
    }
  }

  // ---------- The symbols of the table ----------

  /** How many of the first `n` entries are read. */
  function ListedBefore(table: seq<InSymbol>, n: nat): nat
    requires n <= |table|
  {
    if n == 0 then 0 else ListedBefore(table, n - 1) + if Listed(table[n - 1]) then 1 else 0
  }

  /**
   * Entry `i` of the table has become the symbol behind the reserved four and those of the entries in front of it, and
   * is still listed unless it is erased. Only an import gives it another name.
   */
  ghost predicate EntryKept(input: Input, arena: seq<Symbol>, symbols: seq<Ptr>, i: nat)
    requires i < |input.Table()|
  {
    var s, p := input.Table()[i], 4 + ListedBefore(input.Table(), i);
    && p < |arena| && arena[p].address == s.value && arena[p].size == s.size
    && arena[p].kind == s.info % 16 && arena[p].binding == s.info / 16 % 16
    && (StubHolds(input, s.value) || arena[p].name == s.name)
    && (p in symbols <==> !Erased(input, i))
  }

  ghost predicate AllKept(input: Input, arena: seq<Symbol>, symbols: seq<Ptr>) {
    forall i :: 0 <= i < |input.Table()| && Listed(input.Table()[i]) ==> EntryKept(input, arena, symbols, i)
  }

  /** What writing keeps of the symbols that were read, in front of the imports' stubs. */
  ghost predicate EntriesStay(later: seq<Symbol>, symbols: seq<Ptr>, before: seq<Symbol>, stubs: nat) {
    && stubs <= |before| <= |later|
    && forall p: Ptr :: p < stubs ==> EntryStays(later[p], before[p]) && (p in symbols <==> !Prunable(before[p]))
  }

  predicate EntryStays(later: Symbol, s: Symbol) {
    later == s.(size := later.size, outNamePos := later.outNamePos) && (s.kind != STT_SECTION ==> later.size == s.size)
  }

  lemma {:induction false} KeptCount(table: seq<InSymbol>, n: nat)
    requires n <= |table|
    ensures |KeptSymbols(table[..n])| == ListedBefore(table, n)
  {
    if n > 0 {
      KeptCount(table, n - 1);
      assert table[..n][..n - 1] == table[..n - 1];
    }
  }

  lemma EntryIsKept(libs: seq<Library>, input: Input, before: seq<Symbol>, arena: seq<Symbol>, symbols: seq<Ptr>,
                    i: nat)
    requires LibrariesOf(libs, input) && i < |input.Table()| && Listed(input.Table()[i])
    requires TableStands(before, AllImports(libs), input.Table())
    requires EntriesStay(arena, symbols, before, |before| - |AllImports(libs)|)
    ensures EntryKept(input, arena, symbols, i)
  {
    var table := input.Table();
    var j := KeptAt(table, i);
    KeptCount(table, i);
    ErasedByInput(libs, input, i, j);
    HoldsByImports(libs, input, table[i].value);
    assert EntryStands(before, AllImports(libs), KeptSymbols(table), j);
    assert EntryStays(arena[4 + j], before[4 + j]);
  }

  lemma EntriesKept(libs: seq<Library>, input: Input, before: seq<Symbol>, arena: seq<Symbol>, symbols: seq<Ptr>)
    requires LibrariesOf(libs, input) && TableStands(before, AllImports(libs), input.Table())
    requires EntriesStay(arena, symbols, before, |before| - |AllImports(libs)|)
    ensures AllKept(input, arena, symbols)
  {
    forall i | 0 <= i < |input.Table()| && Listed(input.Table()[i])
      ensures EntryKept(input, arena, symbols, i)
    {
      EntryIsKept(libs, input, before, arena, symbols, i);
    }
  }

  // ---------- The end ----------

  /** How the conversion ends by its stages is how it ends in terms of the input. */
  lemma EndsByInput(libs: seq<Library>, input: Input)
    requires SymTabsNamed(input.symTabs) && StubsLead(input) ==> LibrariesOf(libs, input)
    ensures ConversionEnds(AllImports(libs), input) == EndsAs(input)
  {
    StubsByIndex(input);
    assert SymTabsNamed(input.symTabs) <==> !exists t :: t in input.symTabs && t.name != ".symtab";
    if SymTabsNamed(input.symTabs) && StubsLead(input) {
      StaticEnds(libs, input);
      DynEnds(libs, input);
      PointersEnd(libs, input);
      StrandedEnd(libs, input);
      if DynReadable(AllImports(libs), KnownAddresses(input.Table()), input.dyn) {
        TargetsEnd(libs, input);
      }
    }
  }
}
