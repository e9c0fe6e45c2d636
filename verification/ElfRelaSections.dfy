/** Creating one relocation section per section that relocations target. */
module ElfRelaSections {
  import opened Words
  import opened Wrappers
  import opened ElfSymbols
  import opened ElfRead
  import opened ElfSections

  /** The target's first containing section has a relocation section. */
  ghost predicate Homed(sections: seq<OutputSection>, target: nat) {
    exists i: nat :: IsFirst(sections, target, i) && sections[i].relocationSection.Some?
  }

  ghost predicate AllHomed(sections: seq<OutputSection>, relocations: seq<Relocation>) {
    forall r :: r in relocations ==> Homed(sections, r.target)
  }

  /** Section `v` is the relocation section of section `i`. */
  predicate Owns(sections: seq<OutputSection>, i: nat, v: nat)
    requires i < |sections|
  {
    sections[i].relocationSection == Some(v)
  }

  /** A relocation section comes after its owner, has one owner, and names the first section at the owner's start. */
  ghost predicate Linked(sections: seq<OutputSection>) {
    && (forall i: nat, v: nat :: i < |sections| && Owns(sections, i, v) ==>
          && i < v < |sections| && sections[v].kind == SHT_RELA
          && sections[v].addr == 0 && sections[v].relas == []
          && IsFirst(sections, sections[i].addr, sections[v].info))
    && (forall i: nat, j: nat, v: nat :: i < j < |sections| && Owns(sections, i, v) ==> !Owns(sections, j, v))
  }

  /** A later list that also only adds links: what creating relocation and import sections does. */
  ghost predicate Grows(later: seq<OutputSection>, sections: seq<OutputSection>) {
    && Extends(later, sections)
    && forall i :: 0 <= i < |sections| && sections[i].relocationSection.Some? ==>
         later[i].relocationSection == sections[i].relocationSection
  }

  /** A relocation that has a home keeps it. */
  lemma HomesStay(later: seq<OutputSection>, sections: seq<OutputSection>, relocations: seq<Relocation>)
    requires Grows(later, sections) && AllHomed(sections, relocations)
    ensures AllHomed(later, relocations)
  {
    forall r | r in relocations
      ensures Homed(later, r.target)
    {
      var i: nat :| IsFirst(sections, r.target, i) && sections[i].relocationSection.Some?;
      FirstIsStable(later, sections, r.target, i);
    }
  }

  lemma GrowsTransitive(last: seq<OutputSection>, later: seq<OutputSection>, sections: seq<OutputSection>)
    requires Grows(last, later) && Grows(later, sections)
    ensures Grows(last, sections)
  {
  }

  lemma HomesAppend(sections: seq<OutputSection>, relocations: seq<Relocation>, k: nat)
    requires k < |relocations| && AllHomed(sections, relocations[..k]) && Homed(sections, relocations[k].target)
    ensures AllHomed(sections, relocations[..k + 1])
  {
    assert relocations[..k + 1] == relocations[..k] + [relocations[k]];
  }

  /** The list with a new relocation section for section `i`. */
  function WithRela(sections: seq<OutputSection>, i: nat, rela: OutputSection): (r: seq<OutputSection>)
    requires i < |sections|
  {
    sections[i := sections[i].(relocationSection := Some(|sections|))] + [rela]
  }

  lemma WithRelaLinks(sections: seq<OutputSection>, i: nat, rela: OutputSection)
    requires Linked(sections) && i < |sections| && sections[i].relocationSection == None
    requires rela.kind == SHT_RELA && rela.addr == 0 && rela.relas == [] && rela.relocationSection == None
    requires IsFirst(sections, sections[i].addr, rela.info)
    ensures Linked(WithRela(sections, i, rela)) && Grows(WithRela(sections, i, rela), sections)
  {
    var later := WithRela(sections, i, rela);
    forall j: nat, v: nat | j < |later| && Owns(later, j, v)
      ensures j < v < |later| && later[v].kind == SHT_RELA && later[v].addr == 0 && later[v].relas == []
      ensures IsFirst(later, later[j].addr, later[v].info)
    {
      assert j != |sections|;
      if j == i {
        FirstIsStable(later, sections, sections[i].addr, rela.info);
      } else {
        assert Owns(sections, j, v);
        FirstIsStable(later, sections, sections[j].addr, sections[v].info);
      }
    }
    forall j: nat, k: nat, v: nat | j < k < |later| && Owns(later, j, v)
      ensures !Owns(later, k, v)
    {
      assert j != i ==> Owns(sections, j, v);
      assert k < |sections| && k != i && Owns(later, k, v) ==> Owns(sections, k, v);
    }
  }

  /** Appending a section without links keeps every link. */
  lemma AppendLinks(sections: seq<OutputSection>, section: OutputSection)
    requires Linked(sections) && section.relocationSection == None
    ensures Linked(sections + [section]) && Grows(sections + [section], sections)
  {
    var later := sections + [section];
    forall j: nat, v: nat | j < |later| && Owns(later, j, v)
      ensures j < v < |later| && later[v].kind == SHT_RELA && later[v].addr == 0 && later[v].relas == []
      ensures IsFirst(later, later[j].addr, later[v].info)
    {
      assert j < |sections| && Owns(sections, j, v);
      FirstIsStable(later, sections, sections[j].addr, sections[v].info);
    }
    assert forall j: nat, v: nat :: j < |later| && Owns(later, j, v) ==> j < |sections| && Owns(sections, j, v);
  }

  /** The address lies in one of the sections copied from the input. */
  ghost predicate InData(data: seq<DataSection>, address: nat) {
    exists d :: 0 <= d < |data| && data[d].address <= address < Wrap32(data[d].address + data[d].size)
  }

  /** The leading sections still are the input's, apart from links. */
  ghost predicate Carries(sections: seq<OutputSection>, data: seq<DataSection>) {
    && |sections| >= 1 + |data| && sections[0].addr == 0 && sections[0].size == 0
    && forall d :: 0 <= d < |data| ==> Brings(sections[1 + d], data[d])
  }

  predicate Brings(s: OutputSection, d: DataSection) {
    && s.name == d.name && s.kind == d.kind && s.addr == d.address && s.size == d.size
    && s.dataSize == (if d.kind == 8 then 0 else d.size)
  }

  /** Until its size is set, a new relocation section seems to lie over nearly all addresses. */
  predicate Spans(s: OutputSection) {
    s.addr == 0 && s.size == UNSET
  }

  /** Behind the input's sections come relocation sections, of which there is one as soon as a section has a link. */
  ghost predicate RelasFollow(sections: seq<OutputSection>, data: seq<DataSection>) {
    && |sections| >= 1 + |data|
    && (forall i :: 1 + |data| <= i < |sections| ==> Spans(sections[i]))
    && (|sections| == 1 + |data| ==> forall i :: 0 <= i < |sections| ==> sections[i].relocationSection.None?)
  }

  /**
   * A section is found for target number `k`: an input section contains it, or it is not the first and the
   * relocation section created for the first one seems to.
   */
  ghost predicate Reaches(data: seq<DataSection>, k: nat, target: nat) {
    InData(data, target) || (k > 0 && target < UNSET)
  }

  ghost predicate AllReach(data: seq<DataSection>, relocations: seq<Relocation>) {
    forall k :: 0 <= k < |relocations| ==> Reaches(data, k, relocations[k].target)
  }

  /** Which targets a search over the sections finds a section for. */
  lemma SearchReaches(sections: seq<OutputSection>, data: seq<DataSection>, target: nat)
    requires Carries(sections, data) && RelasFollow(sections, data)
    ensures (exists i :: 0 <= i < |sections| && Contains(sections[i], target)) <==>
            Reaches(data, |sections| - 1 - |data|, target)
  {
    if i :| 0 <= i < |sections| && Contains(sections[i], target) {
      if 0 < i <= |data| {
        assert Contains(sections[1 + (i - 1)], target);
        assert data[i - 1].address <= target < Wrap32(data[i - 1].address + data[i - 1].size);
      }
    } else {
      NoDataContains(sections, data, target);
      if |sections| > 1 + |data| {
        assert Spans(sections[1 + |data|]);
      }
    }
  }

  /** Where no section contains the target, no input section does. */
  lemma NoDataContains(sections: seq<OutputSection>, data: seq<DataSection>, target: nat)
    requires Carries(sections, data)
    requires forall i :: 0 <= i < |sections| ==> !Contains(sections[i], target)
    ensures !InData(data, target)
  {
    forall d | 0 <= d < |data|
      ensures !(data[d].address <= target < Wrap32(data[d].address + data[d].size))
    {
      assert !Contains(sections[1 + d], target);
    }
  }

  lemma GrowingCarries(later: seq<OutputSection>, sections: seq<OutputSection>, data: seq<DataSection>)
    requires Grows(later, sections) && Carries(sections, data)
    ensures Carries(later, data)
  {
  }

  /** Linking a section to another changes neither the symbols nor what they describe. */
  lemma LinkKeepsAdded(n: nat, arena: seq<Symbol>, symbols: seq<Ptr>, sections: seq<OutputSection>, itr: nat,
                       i: nat, v: nat)
    requires Added(n, arena, symbols, sections, itr) && 0 < i < |sections|
    ensures Added(n, arena, symbols, sections[i := sections[i].(relocationSection := Some(v))], itr)
  {
  }

  /** Creates the relocation section of section `i`. */
  method CreateRelaSection(w: RplWriter, i: nat, ghost n: nat)
    requires Added(n, w.file.arena, w.file.symbols, w.sections, w.symbolItr)
    requires Linked(w.sections) && i < |w.sections| && w.sections[i].relocationSection.None?
    requires i > 0 && Contains(w.sections[i], w.sections[i].addr)
    modifies w`sections, w`symbolItr, w.file`arena, w.file`symbols
    ensures Added(n, w.file.arena, w.file.symbols, w.sections, w.symbolItr)
    ensures Linked(w.sections) && Grows(w.sections, old(w.sections)) && old(w.file.arena) <= w.file.arena
    ensures |w.sections| == |old(w.sections)| + 1 && Owns(w.sections, i, |old(w.sections)|)
    ensures Spans(w.sections[|old(w.sections)|])
  {
    ghost var sections := w.sections;
    var index := FindSection(w.sections, w.sections[i].addr);
    var rela := NewSection(".rela" + w.sections[i].name, SHT_RELA, 0, UNSET, index.value, 0);
    w.AddSection(rela, n);
    WithRelaLinks(sections, i, w.sections[|sections|]);
    LinkKeepsAdded(n, w.file.arena, w.file.symbols, w.sections, w.symbolItr, i, |sections|);
    w.sections := w.sections[i := w.sections[i].(relocationSection := Some(|w.sections| - 1))];
    assert w.sections == WithRela(sections, i, w.sections[|sections|]);
  }

  /** One pass of the loop: a target whose section has no relocation section yet gets one. */
  method AddRelaSection(w: RplWriter, target: nat, ghost data: seq<DataSection>, ghost n: nat) returns (ok: bool)
    requires Added(n, w.file.arena, w.file.symbols, w.sections, w.symbolItr)
    requires Carries(w.sections, data) && Linked(w.sections) && RelasFollow(w.sections, data)
    modifies w`sections, w`symbolItr, w.file`arena, w.file`symbols
    ensures Added(n, w.file.arena, w.file.symbols, w.sections, w.symbolItr)
    ensures Linked(w.sections) && Grows(w.sections, old(w.sections)) && old(w.file.arena) <= w.file.arena
    ensures RelasFollow(w.sections, data)
    ensures ok <==> Reaches(data, |old(w.sections)| - 1 - |data|, target)
    ensures ok ==> Homed(w.sections, target) && |w.sections| > 1 + |data|
  {
    var found := FindSection(w.sections, target);
    SearchReaches(w.sections, data, target);
    if found.None? {
      return false;
    }
    var i := found.value;
    if w.sections[i].relocationSection.None? {
      CreateRelaSection(w, i, n);
      FirstIsStable(w.sections, old(w.sections), target, i);
    }
    assert IsFirst(w.sections, target, i) && w.sections[i].relocationSection.Some?;
    return true;
  }

  /**
   * The loop over the relocations. It succeeds exactly when a section is found for every target, and then
   * every relocation has a home.
   */
  method AddRelaSections(w: RplWriter, data: seq<DataSection>, ghost n: nat) returns (ok: bool)
    requires Added(n, w.file.arena, w.file.symbols, w.sections, w.symbolItr)
    requires Carries(w.sections, data) && Linked(w.sections)
    requires |w.sections| == 1 + |data| && RelasFollow(w.sections, data)
    modifies w`sections, w`symbolItr, w.file`arena, w.file`symbols
    ensures Added(n, w.file.arena, w.file.symbols, w.sections, w.symbolItr)
    ensures Linked(w.sections) && Grows(w.sections, old(w.sections)) && old(w.file.arena) <= w.file.arena
    ensures ok <==> AllReach(data, w.file.relocations)
    ensures ok ==> AllHomed(w.sections, w.file.relocations) && RelasFollow(w.sections, data)
  {
    var relocations := w.file.relocations;
    for k := 0 to |relocations|
      invariant Added(n, w.file.arena, w.file.symbols, w.sections, w.symbolItr)
      invariant Linked(w.sections) && Grows(w.sections, old(w.sections)) && old(w.file.arena) <= w.file.arena
      invariant AllHomed(w.sections, relocations[..k])
      invariant RelasFollow(w.sections, data) && (|w.sections| == 1 + |data| <==> k == 0)
      invariant forall j :: 0 <= j < k ==> Reaches(data, j, relocations[j].target)
    {
      GrowingCarries(w.sections, old(w.sections), data);
      ghost var before := w.sections;
      ok := AddRelaSection(w, relocations[k].target, data, n);
      if !ok {
        return;
      }
      GrowsTransitive(w.sections, before, old(w.sections));
      HomesStay(w.sections, before, relocations[..k]);
      HomesAppend(w.sections, relocations, k);
    }
    assert relocations[..|relocations|] == relocations;
    ok := true;
  }
}
