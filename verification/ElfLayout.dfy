/** Assigning file offsets: four passes over the section list, each placing one group of sections. */
module ElfLayout {
  import opened Words
  import opened ElfSymbols
  import opened ElfSections

  const HEADER_SIZE: nat := 0x34
  const SECTION_HEADER_SIZE: nat := 0x28

  /** The pass that places a section: checksums and file info, data, load, everything else. */
  function PassOf(s: OutputSection): (p: nat)
    ensures 1 <= p <= 4
  {
    if s.kind == SHT_RPL_CRCS || s.kind == SHT_RPL_FILEINFO then 1
    else if DATA_ADDRESS <= s.addr < WIIU_LOAD_ADDRESS then 2
    else if s.addr >= WIIU_LOAD_ADDRESS then 3
    else 4
  }

  /** What each pass tests: the first goes by kind, the others by address among those not placed yet. */
  predicate Selected(pass: nat, s: OutputSection) {
    match pass
    case 1 => s.kind == SHT_RPL_CRCS || s.kind == SHT_RPL_FILEINFO
    case 2 => s.offset == UNSET && !(s.addr < DATA_ADDRESS || s.addr >= WIIU_LOAD_ADDRESS)
    case 3 => s.offset == UNSET && !(s.addr < WIIU_LOAD_ADDRESS)
    case _ => s.offset == UNSET
  }

  function Placed(s: OutputSection, cursor: nat): OutputSection {
    var sized := if s.kind != SHT_NOBITS then s.(size := s.dataSize) else s;
    sized.(offset := if s.dataSize > 0 then Wrap32(cursor) else 0)
  }

  function Next(s: OutputSection, cursor: nat): nat {
    if s.dataSize > 0 then Wrap32(AlignUp(Wrap32(Wrap32(cursor) + s.dataSize), 64)) else cursor
  }

  /** One pass from section `i` on. */
  function Pass(pass: nat, sections: seq<OutputSection>, i: nat, cursor: nat): (r: (seq<OutputSection>, nat))
    requires i <= |sections|
    ensures |r.0| == |sections|
    decreases |sections| - i
  {
    if i == |sections| then (sections, cursor)
    else if Selected(pass, sections[i]) then
      Pass(pass, sections[i := Placed(sections[i], cursor)], i + 1, Next(sections[i], cursor))
    else Pass(pass, sections, i + 1, cursor)
  }

  /** The position of the first data: past the file header and the section header table. */
  function DataStart(count: nat): nat {
    AlignUp(AlignUp(HEADER_SIZE, 64) + count * SECTION_HEADER_SIZE, 64)
  }

  /** The whole assignment. */
  function Layout(sections: seq<OutputSection>): (r: (seq<OutputSection>, nat))
    ensures |r.0| == |sections|
  {
    var first := Pass(1, sections, 0, DataStart(|sections|));
    var second := Pass(2, first.0, 0, first.1);
    var third := Pass(3, second.0, 0, second.1);
    Pass(4, third.0, 0, third.1)
  }

  method PlacePass(w: RplWriter, pass: nat, dataOffset: nat) returns (next: nat)
    modifies w`sections
    ensures (w.sections, next) == Pass(pass, old(w.sections), 0, dataOffset)
  {
    next := dataOffset;
    for i := 0 to |w.sections|
      invariant |w.sections| == |old(w.sections)|
      invariant Pass(pass, w.sections, i, next) == Pass(pass, old(w.sections), 0, dataOffset)
    {
      if !Selected(pass, w.sections[i]) {
        continue;
      }
      var s := w.sections[i];
      if s.kind != SHT_NOBITS {
        s := s.(size := s.dataSize);
      }
      if s.dataSize > 0 {
        s := s.(offset := Wrap32(next));
        next := Wrap32(AlignUp(Wrap32(s.offset + s.dataSize), 64));
      } else {
        s := s.(offset := 0);
      }
      w.sections := w.sections[i := s];
    }
  }

  method AssignOffsets(w: RplWriter)
    modifies w`sections
    ensures w.sections == Layout(old(w.sections)).0
  {
    var shoff := AlignUp(HEADER_SIZE, 64);
    var dataOffset := AlignUp(shoff + |w.sections| * SECTION_HEADER_SIZE, 64);
    dataOffset := PlacePass(w, 1, dataOffset);
    dataOffset := PlacePass(w, 2, dataOffset);
    dataOffset := PlacePass(w, 3, dataOffset);
    dataOffset := PlacePass(w, 4, dataOffset);
  }

  // ---------- What the layout means ----------

  function Room(s: OutputSection): nat {
    AlignUp(s.dataSize, 64)
  }

  function TotalRoom(sections: seq<OutputSection>): nat {
    if sections == [] then 0 else TotalRoom(sections[..|sections| - 1]) + Room(sections[|sections| - 1])
  }

  /** The room of the sections placed so far. */
  function PlacedRoom(sections: seq<OutputSection>): (r: nat)
    ensures r <= TotalRoom(sections)
  {
    if sections == [] then 0
    else
      var last := sections[|sections| - 1];
      PlacedRoom(sections[..|sections| - 1]) + if last.offset != UNSET then Room(last) else 0
  }

  /** Section `a` at index `i` is placed before section `b` at index `j`. */
  predicate Precedes(a: OutputSection, i: nat, b: OutputSection, j: nat) {
    PassOf(a) < PassOf(b) || (PassOf(a) == PassOf(b) && i < j)
  }

  /** A list ready for layout: only the null section has an offset, and it has no data. */
  ghost predicate Unplaced(sections: seq<OutputSection>) {
    && |sections| >= 1 && IsNullSection(sections[0])
    && forall i :: 1 <= i < |sections| ==> sections[i].offset == UNSET
  }

  predicate IsNullSection(s: OutputSection) {
    s.kind == SHT_NULL && s.offset == 0 && s.dataSize == 0 && s.size == 0
  }

  /** The layout of one placed section. */
  ghost predicate WellPlaced(s: OutputSection, start: nat, cursor: nat) {
    && (s.kind != SHT_NOBITS ==> s.size == s.dataSize)
    && (s.dataSize == 0 ==> s.offset == 0)
    && (s.dataSize > 0 ==> s.offset % 64 == 0 && start <= s.offset && s.offset + s.dataSize <= cursor)
  }

  /** Pass `pass` has reached section `i`: exactly the sections due by now are placed. */
  ghost predicate Due(sections: seq<OutputSection>, pass: nat, i: nat) {
    forall j :: 1 <= j < |sections| ==>
      (sections[j].offset != UNSET <==> PassOf(sections[j]) < pass || (PassOf(sections[j]) == pass && j < i))
  }

  ghost predicate AllWell(sections: seq<OutputSection>, start: nat, cursor: nat) {
    forall j :: 0 <= j < |sections| && sections[j].offset != UNSET ==> WellPlaced(sections[j], start, cursor)
  }

  /** Placed sections with data follow each other in pass order, then list order. */
  ghost predicate Ordered(sections: seq<OutputSection>) {
    forall j, k :: 0 <= j < |sections| && 0 <= k < |sections| && Follows(sections, j, k) ==>
      sections[j].offset + sections[j].dataSize <= sections[k].offset
  }

  predicate Follows(sections: seq<OutputSection>, j: nat, k: nat)
    requires j < |sections| && k < |sections|
  {
    HasData(sections[j]) && HasData(sections[k]) && Precedes(sections[j], j, sections[k], k)
  }

  /** The state between two placements: the sections due are placed, aligned, in order and apart. */
  ghost predicate Reached(sections: seq<OutputSection>, pass: nat, i: nat, start: nat, cursor: nat) {
    && |sections| >= 1 && IsNullSection(sections[0])
    && start <= cursor && cursor % 64 == 0 && cursor == start + PlacedRoom(sections)
    && Due(sections, pass, i) && AllWell(sections, start, cursor) && Ordered(sections)
  }

  predicate HasData(s: OutputSection) {
    s.offset != UNSET && s.dataSize > 0
  }

  /** The fields layout leaves alone. */
  ghost predicate SameSections(later: seq<OutputSection>, sections: seq<OutputSection>) {
    && |later| == |sections|
    && forall i :: 0 <= i < |sections| ==>
         later[i] == sections[i].(offset := later[i].offset, size := later[i].size)
         && (sections[i].kind == SHT_NOBITS ==> later[i].size == sections[i].size)
         && (later[i].size == sections[i].size || later[i].size == sections[i].dataSize)
  }

  lemma PlacedRoomUpdate(sections: seq<OutputSection>, i: nat, s: OutputSection)
    requires i < |sections| && sections[i].offset == UNSET && s.offset != UNSET && s.dataSize == sections[i].dataSize
    ensures PlacedRoom(sections[i := s]) == PlacedRoom(sections) + Room(s)
    ensures TotalRoom(sections[i := s]) == TotalRoom(sections)
  {
    RoomUpdate(sections, i, s, Room(s));
  }

  lemma {:induction false} RoomUpdate(sections: seq<OutputSection>, i: nat, s: OutputSection, room: nat)
    requires i < |sections| && sections[i].offset == UNSET && s.offset != UNSET
    requires Room(s) == Room(sections[i]) == room
    ensures PlacedRoom(sections[i := s]) == PlacedRoom(sections) + room
    ensures TotalRoom(sections[i := s]) == TotalRoom(sections)
    decreases |sections|
  {
    var init, last := sections[..|sections| - 1], sections[|sections| - 1];
    assert sections == init + [last];
    RoomAppend(init, last);
    if i < |init| {
      RoomUpdate(init, i, s, room);
      assert sections[i := s] == init[i := s] + [last];
      RoomAppend(init[i := s], last);
    } else {
      assert sections[i := s] == init + [s];
      RoomAppend(init, s);
    }
  }

  lemma RoomAppend(init: seq<OutputSection>, last: OutputSection)
    ensures PlacedRoom(init + [last]) == PlacedRoom(init) + if last.offset != UNSET then Room(last) else 0
    ensures TotalRoom(init + [last]) == TotalRoom(init) + Room(last)
  {
    assert (init + [last])[..|init|] == init;
  }

  /** Aligning after data at an aligned position is adding the data's room. */
  lemma AlignAfter(cursor: nat, size: nat)
    requires cursor % 64 == 0
    ensures AlignUp(cursor + size, 64) == cursor + AlignUp(size, 64)
  {
  }

  /** The arithmetic of one placement. */
  lemma PlaceOne(s: OutputSection, start: nat, cursor: nat)
    requires start <= cursor && cursor % 64 == 0 && cursor + Room(s) < TWO_TO_32
    ensures Next(s, cursor) == cursor + Room(s) && Next(s, cursor) % 64 == 0
    ensures Placed(s, cursor).offset == (if s.dataSize > 0 then cursor else 0) != UNSET
    ensures WellPlaced(Placed(s, cursor), start, Next(s, cursor))
  {
    AlignAfter(cursor, s.dataSize);
  }

  /** Everything placed lies before the cursor, so what is placed at it comes last. */
  lemma PlaceLast(sections: seq<OutputSection>, pass: nat, i: nat, start: nat, cursor: nat, p: OutputSection)
    requires i < |sections| && Due(sections, pass, i) && AllWell(sections, start, cursor) && Ordered(sections)
    requires i > 0 && PassOf(p) == pass && sections[0].dataSize == 0
    requires p.dataSize > 0 ==> p.offset == cursor
    ensures Ordered(sections[i := p])
  {
    var later := sections[i := p];
    forall j, k | 0 <= j < |later| && 0 <= k < |later| && Follows(later, j, k)
      ensures later[j].offset + later[j].dataSize <= later[k].offset
    {
      if j != i && k != i {
        assert Follows(sections, j, k);
      } else if k == i {
        assert WellPlaced(sections[j], start, cursor);
      }
    }
  }

  /** Placing the section the pass has reached. */
  lemma PlaceStep(sections: seq<OutputSection>, pass: nat, i: nat, start: nat, cursor: nat)
    requires 1 <= pass <= 4 && 0 < i < |sections| && sections[i].offset == UNSET && PassOf(sections[i]) == pass
    requires Reached(sections, pass, i, start, cursor) && start + TotalRoom(sections) < TWO_TO_32
    ensures var s := sections[i];
            Reached(sections[i := Placed(s, cursor)], pass, i + 1, start, Next(s, cursor))
  {
    var s := sections[i];
    var p := Placed(s, cursor);
    PlacedRoomUpdate(sections, i, s.(offset := 0));
    assert cursor + Room(s) < TWO_TO_32;
    PlaceOne(s, start, cursor);
    PlacedRoomUpdate(sections, i, p);
    PlaceLast(sections, pass, i, start, cursor, p);
    forall j | 0 <= j < |sections| && sections[j].offset != UNSET
      ensures WellPlaced(sections[j], start, Next(s, cursor))
    {
      assert WellPlaced(sections[j], start, cursor);
    }
  }

  /** A pass selects a section exactly when it is the section's pass, the null section never. */
  lemma SelectedIsDue(sections: seq<OutputSection>, pass: nat, i: nat, start: nat, cursor: nat)
    requires 1 <= pass <= 4 && i < |sections| && Reached(sections, pass, i, start, cursor)
    ensures Selected(pass, sections[i]) ==> i > 0 && sections[i].offset == UNSET && PassOf(sections[i]) == pass
    ensures !Selected(pass, sections[i]) ==> Reached(sections, pass, i + 1, start, cursor)
  {
    if !Selected(pass, sections[i]) {
      assert Due(sections, pass, i + 1);
    }
  }

  lemma {:induction false} PassReaches(sections: seq<OutputSection>, pass: nat, i: nat, start: nat, cursor: nat)
    requires 1 <= pass <= 4 && i <= |sections| && start + TotalRoom(sections) < TWO_TO_32
    requires Reached(sections, pass, i, start, cursor)
    ensures Reached(Pass(pass, sections, i, cursor).0, pass, |sections|, start, Pass(pass, sections, i, cursor).1)
    decreases |sections| - i
  {
    if i < |sections| {
      SelectedIsDue(sections, pass, i, start, cursor);
      if Selected(pass, sections[i]) {
        PlaceStep(sections, pass, i, start, cursor);
        SameRoom(sections, i, cursor);
        PassReaches(sections[i := Placed(sections[i], cursor)], pass, i + 1, start, Next(sections[i], cursor));
      } else {
        PassReaches(sections, pass, i + 1, start, cursor);
      }
    }
  }

  lemma {:induction false} SameRoom(sections: seq<OutputSection>, i: nat, cursor: nat)
    requires i < |sections|
    ensures TotalRoom(sections[i := Placed(sections[i], cursor)]) == TotalRoom(sections)
    decreases |sections|
  {
    var last, later := |sections| - 1, sections[i := Placed(sections[i], cursor)];
    if i < last {
      SameRoom(sections[..last], i, cursor);
      assert later[..last] == sections[..last][i := later[i]];
    } else {
      assert later[..last] == sections[..last];
    }
  }

  lemma PlacingKeeps(sections: seq<OutputSection>, i: nat, cursor: nat)
    requires i < |sections|
    ensures SameSections(sections[i := Placed(sections[i], cursor)], sections)
  {
  }

  /** A pass changes nothing but offsets and sizes. */
  lemma {:induction false} PassKeeps(pass: nat, sections: seq<OutputSection>, i: nat, cursor: nat)
    requires i <= |sections|
    ensures SameSections(Pass(pass, sections, i, cursor).0, sections)
    ensures TotalRoom(Pass(pass, sections, i, cursor).0) == TotalRoom(sections)
    decreases |sections| - i
  {
    if i < |sections| {
      if Selected(pass, sections[i]) {
        SameRoom(sections, i, cursor);
        PlacingKeeps(sections, i, cursor);
        var next := sections[i := Placed(sections[i], cursor)];
        PassKeeps(pass, next, i + 1, Next(sections[i], cursor));
        SameTransitive(Pass(pass, next, i + 1, Next(sections[i], cursor)).0, next, sections);
      } else {
        PassKeeps(pass, sections, i + 1, cursor);
      }
    }
  }

  lemma {:induction false} UnplacedRoom(sections: seq<OutputSection>)
    requires forall i :: 0 <= i < |sections| && sections[i].dataSize > 0 ==> sections[i].offset == UNSET
    ensures PlacedRoom(sections) == 0
  {
    if sections != [] {
      UnplacedRoom(sections[..|sections| - 1]);
    }
  }

  /** A whole pass, up to the start of the next one. */
  lemma OnePass(sections: seq<OutputSection>, pass: nat, start: nat, cursor: nat)
    requires 1 <= pass <= 4 && start + TotalRoom(sections) < TWO_TO_32
    requires Reached(sections, pass, 0, start, cursor)
    ensures var r := Pass(pass, sections, 0, cursor);
            && Reached(r.0, pass + 1, 0, start, r.1) && SameSections(r.0, sections)
            && TotalRoom(r.0) == TotalRoom(sections)
  {
    PassReaches(sections, pass, 0, start, cursor);
    PassKeeps(pass, sections, 0, cursor);
    assert Due(Pass(pass, sections, 0, cursor).0, pass + 1, 0);
  }

  lemma SameTransitive(last: seq<OutputSection>, later: seq<OutputSection>, sections: seq<OutputSection>)
    requires SameSections(last, later) && SameSections(later, sections)
    ensures SameSections(last, sections)
  {
    forall i | 0 <= i < |sections|
      ensures last[i] == sections[i].(offset := last[i].offset, size := last[i].size)
      ensures last[i].size == sections[i].size || last[i].size == sections[i].dataSize
    {
      assert later[i] == sections[i].(offset := later[i].offset, size := later[i].size);
    }
  }

  lemma LayoutReaches(sections: seq<OutputSection>, start: nat)
    requires start == DataStart(|sections|) && start + TotalRoom(sections) < TWO_TO_32
    requires Reached(sections, 1, 0, start, start)
    ensures Reached(Layout(sections).0, 5, 0, start, Layout(sections).1)
    ensures SameSections(Layout(sections).0, sections) && TotalRoom(Layout(sections).0) == TotalRoom(sections)
  {
    OnePass(sections, 1, start, start);
    var first := Pass(1, sections, 0, start);
    OnePass(first.0, 2, start, first.1);
    var second := Pass(2, first.0, 0, first.1);
    OnePass(second.0, 3, start, second.1);
    var third := Pass(3, second.0, 0, second.1);
    OnePass(third.0, 4, start, third.1);
    SameTransitive(second.0, first.0, sections);
    SameTransitive(third.0, second.0, sections);
    SameTransitive(Layout(sections).0, third.0, sections);
  }

  /** Checksums and file info come first, then what is in the data, then what is above it, then the rest. */
  function FileRank(s: OutputSection): nat {
    if s.kind == 0x8000_0003 || s.kind == 0x8000_0004 then 1
    else if 0x1000_0000 <= s.addr < 0xC000_0000 then 2
    else if 0xC000_0000 <= s.addr then 3
    else 4
  }

  /** Section `j` is in the file behind section `i`. */
  predicate Behind(sections: seq<OutputSection>, i: nat, j: nat)
    requires i < |sections| && j < |sections|
  {
    FileRank(sections[i]) < FileRank(sections[j]) || (FileRank(sections[i]) == FileRank(sections[j]) && i < j)
  }

  /** Sections with data are one behind the other. */
  ghost predicate InFileOrder(sections: seq<OutputSection>) {
    forall i, j :: 0 <= i < |sections| && 0 <= j < |sections| && Behind(sections, i, j) ==>
      sections[i].dataSize > 0 && sections[j].dataSize > 0 ==>
        sections[i].offset + sections[i].dataSize <= sections[j].offset
  }

  lemma OrderedInFile(sections: seq<OutputSection>)
    requires Ordered(sections) && forall i :: 0 <= i < |sections| ==> sections[i].offset != UNSET
    ensures InFileOrder(sections)
  {
    forall i, j | 0 <= i < |sections| && 0 <= j < |sections| && Behind(sections, i, j) &&
                  sections[i].dataSize > 0 && sections[j].dataSize > 0
      ensures sections[i].offset + sections[i].dataSize <= sections[j].offset
    {
      assert Follows(sections, i, j);
    }
  }

  /** The data of all sections, each rounded up to 64 bytes. */
  function FileRoom(sections: seq<OutputSection>): nat {
    if sections == [] then 0
    else FileRoom(sections[..|sections| - 1]) + (sections[|sections| - 1].dataSize + 63) / 64 * 64
  }

  lemma {:induction false} RoomIsFileRoom(sections: seq<OutputSection>)
    ensures TotalRoom(sections) == FileRoom(sections)
  {
    if sections != [] {
      RoomIsFileRoom(sections[..|sections| - 1]);
      RoundUp(sections[|sections| - 1].dataSize);
    }
  }

  lemma RoundUp(size: nat)
    ensures AlignUp(size, 64) == (size + 63) / 64 * 64
  {
  }

  /** The file header and the section headers, rounded up. */
  lemma HeadersEnd(count: nat)
    ensures DataStart(count) == (64 + 40 * count + 63) / 64 * 64
  {
    RoundUp(64 + 40 * count);
  }

  /**
   * After the four passes every section has been placed exactly once: none is left unset, and each with data is at a
   * multiple of 64 behind the headers. They are one behind the other by rank, then in list order, and all together
   * they take no more room than their sizes rounded up.
   */
  lemma LayoutIsSound(sections: seq<OutputSection>)
    requires Unplaced(sections) && DataStart(|sections|) + TotalRoom(sections) < TWO_TO_32
    ensures var later, start := Layout(sections).0, (64 + 40 * |sections| + 63) / 64 * 64;
            && SameSections(later, sections)
            && (forall i :: 0 <= i < |later| ==>
                  later[i].offset != UNSET && WellPlaced(later[i], start, Layout(sections).1))
            && Layout(sections).1 == start + FileRoom(sections)
    ensures InFileOrder(Layout(sections).0)
  {
    var start := (64 + 40 * |sections| + 63) / 64 * 64;
    HeadersEnd(|sections|);
    RoomIsFileRoom(sections);
    LayoutFrom(sections, start);
    OrderedInFile(Layout(sections).0);
  }

  lemma LayoutFrom(sections: seq<OutputSection>, start: nat)
    requires Unplaced(sections) && start == DataStart(|sections|) && start + TotalRoom(sections) < TWO_TO_32
    ensures var later := Layout(sections).0;
            && SameSections(later, sections) && Ordered(later)
            && (forall i :: 0 <= i < |later| ==>
                  later[i].offset != UNSET && WellPlaced(later[i], start, Layout(sections).1))
    ensures Layout(sections).1 == start + TotalRoom(sections)
  {
    BeforeLayout(sections, start);
    LayoutReaches(sections, start);
    AfterLayout(Layout(sections).0, start, Layout(sections).1);
  }

  lemma BeforeLayout(sections: seq<OutputSection>, start: nat)
    requires Unplaced(sections) && start % 64 == 0
    ensures Reached(sections, 1, 0, start, start)
  {
    UnplacedRoom(sections);
  }

  lemma AfterLayout(later: seq<OutputSection>, start: nat, cursor: nat)
    requires Reached(later, 5, 0, start, cursor)
    ensures forall i :: 0 <= i < |later| ==> later[i].offset != UNSET && WellPlaced(later[i], start, cursor)
    ensures cursor == start + TotalRoom(later)
  {
    AllDone(later);
    AllPlaced(later);
  }

  /** After the last pass every section is done. */
  lemma AllDone(sections: seq<OutputSection>)
    requires |sections| >= 1 && IsNullSection(sections[0]) && Due(sections, 5, 0)
    ensures forall i :: 0 <= i < |sections| ==> sections[i].offset != UNSET
  {
  }

  lemma {:induction false} AllPlaced(sections: seq<OutputSection>)
    requires forall i :: 0 <= i < |sections| ==> sections[i].offset != UNSET
    ensures PlacedRoom(sections) == TotalRoom(sections)
  {
    if sections != [] {
      AllPlaced(sections[..|sections| - 1]);
    }
  }

  /** The data of two sections never overlaps in the file, nor does it overlap the headers. */
  lemma LayoutIsDisjoint(sections: seq<OutputSection>, i: nat, j: nat)
    requires Unplaced(sections) && DataStart(|sections|) + TotalRoom(sections) < TWO_TO_32
    requires i < j < |sections| && sections[i].dataSize > 0 && sections[j].dataSize > 0
    ensures var a, b := Layout(sections).0[i], Layout(sections).0[j];
            && (a.offset + a.dataSize <= b.offset || b.offset + b.dataSize <= a.offset)
            && a.offset >= 64 + 40 * |sections|
  {
    LayoutIsSound(sections);
    var later := Layout(sections).0;
    assert later[i].dataSize == sections[i].dataSize && later[j].dataSize == sections[j].dataSize;
    assert Behind(later, i, j) || Behind(later, j, i);
  }
}
