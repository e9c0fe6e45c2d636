/** Copying one flat image over a chain of memory areas. */
module Scatter {
  import opened Words
  import opened Wrappers

  // ---------- Areas ----------

  datatype Area = Area(address: nat, size: nat)

  /** An area of the table, linked to the one after it. */
  class MemArea {
    var address: nat
    var size: nat
    var next: MemArea?

    constructor ()
      ensures next == null
    {
      address, size, next := 0, 0, null;
    }
  }

  function Capacity(areas: seq<Area>): nat {
    if areas == [] then 0 else areas[0].size + Capacity(areas[1..])
  }

  /** Where byte `i` of the image belongs. */
  function Addr(areas: seq<Area>, i: nat): nat
    requires i < Capacity(areas)
  {
    if i < areas[0].size then areas[0].address + i else Addr(areas[1..], i - areas[0].size)
  }

  predicate DisjointAreas(areas: seq<Area>) {
    forall i, j :: 0 <= i < j < |areas| ==>
      areas[i].address + areas[i].size <= areas[j].address || areas[j].address + areas[j].size <= areas[i].address
  }

  predicate Inside(areas: seq<Area>, length: nat) {
    forall i :: 0 <= i < |areas| ==> areas[i].address + areas[i].size <= length
  }

  /** The address lies in one of the areas. */
  predicate Covered(areas: seq<Area>, a: nat) {
    exists k :: 0 <= k < |areas| && areas[k].address <= a < areas[k].address + areas[k].size
  }

  lemma {:induction false} AddrCovered(areas: seq<Area>, i: nat)
    requires i < Capacity(areas)
    ensures Covered(areas, Addr(areas, i))
  {
    if i >= areas[0].size {
      AddrCovered(areas[1..], i - areas[0].size);
      var rest := areas[1..];
      var k :| 0 <= k < |rest| && rest[k].address <= Addr(areas, i) < rest[k].address + rest[k].size;
      assert areas[k + 1] == rest[k];
    }
  }

  /** In disjoint areas, no two bytes of the image share an address. */
  lemma {:induction false} AddrInjective(areas: seq<Area>, i: nat, j: nat)
    requires DisjointAreas(areas) && i < j < Capacity(areas)
    ensures Addr(areas, i) != Addr(areas, j)
  {
    var first, rest := areas[0], areas[1..];
    assert DisjointAreas(rest);
    if i >= first.size {
      AddrInjective(rest, i - first.size, j - first.size);
    } else if j >= first.size {
      AddrCovered(rest, j - first.size);
      var k :| 0 <= k < |rest| && rest[k].address <= Addr(areas, j) < rest[k].address + rest[k].size;
      assert areas[k + 1] == rest[k];
    }
  }

  /** A position in the k-th area, counted from the start of the image. */
  lemma {:induction false} AddrAt(areas: seq<Area>, k: nat, p: nat)
    requires k < |areas| && p < areas[k].size
    ensures Capacity(areas[..k]) + p < Capacity(areas)
    ensures Addr(areas, Capacity(areas[..k]) + p) == areas[k].address + p
  {
    if k > 0 {
      AddrAt(areas[1..], k - 1, p);
      assert areas[..k][1..] == areas[1..][..k - 1];
    }
  }

  lemma {:induction false} CapacityStep(areas: seq<Area>, k: nat)
    requires k < |areas|
    ensures Capacity(areas[..k + 1]) == Capacity(areas[..k]) + areas[k].size
    ensures Capacity(areas[..k + 1]) <= Capacity(areas)
  {
    if k > 0 {
      CapacityStep(areas[1..], k - 1);
      assert areas[..k][1..] == areas[1..][..k - 1] && areas[..k + 1][1..] == areas[1..][..k];
    } else {
      assert areas[..1][1..] == [];
    }
  }

  // ---------- What has been copied ----------

  /** The first `n` bytes of the image are where they belong. */
  ghost predicate Placed(mem: string, areas: seq<Area>, image: string, n: nat)
    requires n <= |image| && n <= Capacity(areas)
  {
    forall i: nat {:trigger Addr(areas, i)} :: i < n ==> Addr(areas, i) < |mem| && mem[Addr(areas, i)] == image[i]
  }

  /** Nothing but the places of the first `n` bytes has changed. */
  ghost predicate Elsewhere(was: string, mem: string, areas: seq<Area>, n: nat)
    requires n <= Capacity(areas)
  {
    && |mem| == |was|
    && forall a: nat :: a < |mem| && mem[a] != was[a] ==>
         exists i: nat {:trigger Addr(areas, i)} :: i < n && Addr(areas, i) == a
  }

  /** The memory after writing a block. */
  function Written(mem: string, at: nat, block: string): (r: string)
    requires at + |block| <= |mem|
    ensures |r| == |mem|
    ensures forall a :: 0 <= a < |mem| ==> r[a] == if at <= a < at + |block| then block[a - at] else mem[a]
  {
    mem[..at] + block + mem[at + |block|..]
  }

  /** Bytes `n` up to `n + b` of the image belong together, from address `at` on. */
  ghost predicate BlockAt(areas: seq<Area>, n: nat, b: nat, at: nat)
    requires n + b <= Capacity(areas)
  {
    forall i: nat {:trigger Addr(areas, i)} :: n <= i < n + b ==> Addr(areas, i) == at + (i - n)
  }

  lemma BlockInArea(areas: seq<Area>, k: nat, p: nat, b: nat)
    requires k < |areas| && p + b <= areas[k].size
    ensures Capacity(areas[..k]) + p + b <= Capacity(areas)
    ensures BlockAt(areas, Capacity(areas[..k]) + p, b, areas[k].address + p)
  {
    CapacityStep(areas, k);
    var n := Capacity(areas[..k]) + p;
    forall i: nat | n <= i < n + b
      ensures Addr(areas, i) == areas[k].address + p + (i - n)
    {
      AddrAt(areas, k, p + (i - n));
    }
  }

  /** The places of earlier bytes are outside the block. */
  lemma BeforeBlock(areas: seq<Area>, n: nat, b: nat, at: nat, i: nat)
    requires DisjointAreas(areas) && n + b <= Capacity(areas) && i < n && BlockAt(areas, n, b, at)
    ensures !(at <= Addr(areas, i) < at + b)
  {
    if at <= Addr(areas, i) < at + b {
      AddrInjective(areas, i, n + (Addr(areas, i) - at));
    }
  }

  lemma PlacedBlock(mem: string, areas: seq<Area>, image: string, n: nat, b: nat, at: nat)
    requires DisjointAreas(areas) && n + b <= |image| && n + b <= Capacity(areas) && at + b <= |mem|
    requires BlockAt(areas, n, b, at) && Placed(mem, areas, image, n)
    ensures Placed(Written(mem, at, image[n..n + b]), areas, image, n + b)
  {
    var mem' := Written(mem, at, image[n..n + b]);
    forall i: nat | i < n + b
      ensures Addr(areas, i) < |mem'| && mem'[Addr(areas, i)] == image[i]
    {
      if i < n {
        BeforeBlock(areas, n, b, at, i);
      } else {
        assert image[n..n + b][i - n] == image[i];
      }
    }
  }

  lemma ElsewhereBlock(was: string, mem: string, areas: seq<Area>, block: string, n: nat, at: nat)
    requires n + |block| <= Capacity(areas) && at + |block| <= |mem|
    requires BlockAt(areas, n, |block|, at) && Elsewhere(was, mem, areas, n)
    ensures Elsewhere(was, Written(mem, at, block), areas, n + |block|)
  {
    var mem' := Written(mem, at, block);
    forall a: nat | a < |mem'| && mem'[a] != was[a]
      ensures exists i: nat {:trigger Addr(areas, i)} :: i < n + |block| && Addr(areas, i) == a
    {
      if at <= a < at + |block| {
        assert Addr(areas, n + (a - at)) == a;
      }
    }
  }

  // ---------- The table ----------

  /** The areas of linked table entries, as values. */
  function Regions(nodes: seq<MemArea>): (r: seq<Area>)
    reads nodes
    ensures |r| == |nodes| && forall i :: 0 <= i < |r| ==> r[i] == Area(nodes[i].address, nodes[i].size)
  {
    if nodes == [] then []
    else
      var last := nodes[|nodes| - 1];
      Regions(nodes[..|nodes| - 1]) + [Area(last.address, last.size)]
  }

  function AreaAt(nodes: seq<MemArea>, i: nat): MemArea? {
    if i < |nodes| then nodes[i] else null
  }

  ghost predicate Linked(nodes: seq<MemArea>)
    reads nodes
  {
    forall i {:trigger nodes[i].next} :: 0 <= i < |nodes| ==> nodes[i].next == AreaAt(nodes, i + 1)
  }

  // ---------- Copying ----------

  class Memory {
    var bytes: string

    /** Copies a block of the image to an address, as both the kernel call and `memcpy` do. */
    method Store(address: nat, image: string, from: nat, length: nat)
      requires address + length <= |bytes| && from + length <= |image|
      modifies this
      ensures bytes == Written(old(bytes), address, image[from..from + length])
    {
      var i := 0;
      while i < length
        invariant i <= length && |bytes| == |old(bytes)|
        invariant forall a :: 0 <= a < |bytes| ==>
                    bytes[a] == if address <= a < address + i then image[from + (a - address)] else old(bytes)[a]
      {
        bytes := bytes[address + i := image[from + i]];
        i := i + 1;
      }
    }
  }

  /** The loop has copied `done` bytes and stands at `position` of the area `area`, the k-th. */
  ghost predicate Copying(was: string, mem: string, areas: seq<Area>, image: string, k: nat, position: nat, done: nat) {
    && k < |areas| && position <= areas[k].size && done <= |image| && done <= Capacity(areas)
    && done == Capacity(areas[..k]) + position
    && Placed(mem, areas, image, done) && Elsewhere(was, mem, areas, done)
  }

  lemma CopyStart(mem: string, areas: seq<Area>, image: string)
    requires areas != []
    ensures Copying(mem, mem, areas, image, 0, 0, 0)
  {
  }

  /** On to the next area, when this one is full. */
  lemma CopyNext(was: string, mem: string, areas: seq<Area>, image: string, k: nat, done: nat)
    requires Copying(was, mem, areas, image, k, if k < |areas| then areas[k].size else 0, done)
    ensures k + 1 < |areas| ==> Copying(was, mem, areas, image, k + 1, 0, done)
    ensures k + 1 == |areas| ==> done == Capacity(areas)
  {
    CapacityStep(areas, k);
    assert k + 1 == |areas| ==> areas[..k + 1] == areas;
  }

  lemma CopyStep(was: string, mem: string, areas: seq<Area>, image: string, k: nat, position: nat, done: nat, b: nat)
    requires Copying(was, mem, areas, image, k, position, done) && DisjointAreas(areas) && Inside(areas, |mem|)
    requires done + b <= |image| && position + b <= areas[k].size
    ensures Copying(was, Written(mem, areas[k].address + position, image[done..done + b]), areas, image, k,
                    position + b, done + b)
  {
    BlockInArea(areas, k, position, b);
    PlacedBlock(mem, areas, image, done, b, areas[k].address + position);
    ElsewhereBlock(was, mem, areas, image[done..done + b], done, areas[k].address + position);
  }

  /** Copies as much as fits into the rest of an area. */
  method CopyBlock(memory: Memory, area: MemArea, image: string, position: nat, done: nat,
                   ghost was: string, ghost areas: seq<Area>, ghost k: nat) returns (blockSize: nat)
    requires Copying(was, memory.bytes, areas, image, k, position, done)
    requires DisjointAreas(areas) && Inside(areas, |memory.bytes|) && Area(area.address, area.size) == areas[k]
    requires area.size + |image| < TWO_TO_32
    modifies memory
    ensures Copying(was, memory.bytes, areas, image, k, position + blockSize, done + blockSize)
    ensures |memory.bytes| == |old(memory.bytes)|
    ensures done < |image| && position < areas[k].size ==> blockSize > 0
  {
    blockSize := |image| - done;
    if Wrap32(position + blockSize) > area.size {
      blockSize := area.size - position;
    }
    CopyStep(was, memory.bytes, areas, image, k, position, done, blockSize);
    memory.Store(area.address + position, image, done, blockSize);
  }

  /** The table's entries are linked, disjoint, in memory, and small enough that no 32-bit sum wraps. */
  ghost predicate Loadable(nodes: seq<MemArea>, areas: seq<Area>, room: nat, length: nat)
    reads nodes
  {
    && nodes != [] && Linked(nodes) && areas == Regions(nodes)
    && DisjointAreas(areas) && Inside(areas, room)
    && forall i :: 0 <= i < |areas| ==> areas[i].size + length < TWO_TO_32
  }

  lemma LoadableAt(nodes: seq<MemArea>, areas: seq<Area>, room: nat, length: nat, k: nat)
    requires Loadable(nodes, areas, room, length) && k < |nodes|
    ensures |areas| == |nodes| && areas[k] == Area(nodes[k].address, nodes[k].size)
    ensures nodes[k].next == AreaAt(nodes, k + 1)
    ensures nodes[k].size + length < TWO_TO_32
  {
  }

  /**
   * Copies the image over the chain. It succeeds exactly when the areas have room for all of it; each byte is
   * then where it belongs, and nothing else has changed. When it fails, the areas hold as much as fits.
   */
  method CopyOverAreas(memory: Memory, table: MemArea, image: string, ghost nodes: seq<MemArea>, ghost areas: seq<Area>)
    returns (ok: bool)
    requires Loadable(nodes, areas, |memory.bytes|, |image|) && table == nodes[0]
    modifies memory
    ensures ok <==> |image| <= Capacity(areas)
    ensures ok ==> Placed(memory.bytes, areas, image, |image|)
    ensures !ok ==> Placed(memory.bytes, areas, image, Capacity(areas))
    ensures Elsewhere(old(memory.bytes), memory.bytes, areas, if ok then |image| else Capacity(areas))
  {
    var done: nat, position: nat := 0, 0;
    var area := table;
    ghost var k, was := 0, memory.bytes;
    CopyStart(was, areas, image);
    while done < |image|
      invariant k < |nodes| && area == nodes[k]
      invariant Copying(was, memory.bytes, areas, image, k, position, done) && |memory.bytes| == |was|
      decreases |nodes| - k, |image| - done
    {
      LoadableAt(nodes, areas, |was|, |image|, k);
      if position >= area.size {
        CopyNext(was, memory.bytes, areas, image, k, done);
        if area.next == null {
          return false;
        }
        area := area.next;
        position := 0;
        k := k + 1;
        LoadableAt(nodes, areas, |was|, |image|, k);
      }
      var blockSize := CopyBlock(memory, area, image, position, done, was, areas, k);
      position := position + blockSize;
      done := done + blockSize;
    }
    ok := true;
  }

  // ---------- What the areas hold ----------

  /** The contents of the areas, one after the other. */
  function Gather(mem: string, areas: seq<Area>): string
    requires Inside(areas, |mem|)
  {
    if areas == [] then ""
    else
      assert areas[0].address + areas[0].size <= |mem|;
      assert forall i :: 0 <= i < |areas[1..]| ==> areas[1..][i] == areas[i + 1];
      mem[areas[0].address..areas[0].address + areas[0].size] + Gather(mem, areas[1..])
  }

  lemma {:induction false} GatherAt(mem: string, areas: seq<Area>, i: nat)
    requires Inside(areas, |mem|) && i < Capacity(areas)
    ensures |Gather(mem, areas)| == Capacity(areas) && Addr(areas, i) < |mem|
    ensures Gather(mem, areas)[i] == mem[Addr(areas, i)]
  {
    var first, rest := areas[0], areas[1..];
    GatherLength(mem, areas);
    GatherLength(mem, rest);
    var block := mem[first.address..first.address + first.size];
    assert Gather(mem, areas) == block + Gather(mem, rest);
    if i < first.size {
      assert block[i] == mem[first.address + i];
    } else {
      GatherAt(mem, rest, i - first.size);
    }
  }

  lemma {:induction false} GatherLength(mem: string, areas: seq<Area>)
    requires Inside(areas, |mem|)
    ensures |Gather(mem, areas)| == Capacity(areas)
  {
    if areas != [] {
      GatherLength(mem, areas[1..]);
    }
  }

  /** Reading the areas in order gives the image back. */
  lemma GatherImage(mem: string, areas: seq<Area>, image: string, n: nat)
    requires Inside(areas, |mem|) && n <= |image| && n <= Capacity(areas) && Placed(mem, areas, image, n)
    ensures |Gather(mem, areas)| == Capacity(areas) && Gather(mem, areas)[..n] == image[..n]
  {
    GatherLength(mem, areas);
    forall i: nat | i < n
      ensures Gather(mem, areas)[i] == image[i]
    {
      GatherAt(mem, areas, i);
    }
  }

  /** What is outside all areas is as it was. */
  lemma OutsideUnchanged(was: string, mem: string, areas: seq<Area>, n: nat, a: nat)
    requires n <= Capacity(areas) && Elsewhere(was, mem, areas, n) && a < |mem| && !Covered(areas, a)
    ensures mem[a] == was[a]
  {
    if mem[a] != was[a] {
      var i: nat :| i < n && Addr(areas, i) == a;
      AddrCovered(areas, i);
    }
  }

  // ---------- The program's table ----------

  /** The areas behind the first, as start and end addresses; an entry without a start ends the list. */
  const MEM_VALS: seq<(nat, nat)> := [
    (0x2E609EFC, 0x2FF82000),
    (0x29030800, 0x293F6000),
    (0x288EEC30, 0x28B06800),
    (0x2D3B966C, 0x2D894000),
    (0x2CB56370, 0x2D1EF000),
    (0x2D8AD3D8, 0x2E000000),
    (0x2970200C, 0x298B9800),
    (0x2A057B68, 0x2A1B9000),
    (0x2ABBCC4C, 0x2ACB9000),
    (0, 0)
  ]

  const AREAS: nat := 10

  /** Where the application's memory ends, from the address its program ends at. */
  function ApplicationEnd(end: nat): (r: nat)
    ensures r < 0x0100_0000
  {
    if end >= 0x0100_0000 then 0x0080_2000 else end
  }

  /** The room for the arguments: rounded up, in 32 bits, and cut off. It is enough exactly up to 64 KiB. */
  function ArgsSize(size: nat): (r: nat)
    ensures r <= 0x10000 && r % 8 == 0 && (size <= r <==> size <= 0x10000)
    ensures size <= 0x10000 ==> r < size + 8
    ensures 0x10000 < size < 0xFFFF_FFF9 ==> r == 0x10000
  {
    var sum := Wrap32(size + 7);
    var rounded := sum - sum % 8;
    if rounded > 0x10000 then 0x10000 else rounded
  }

  /** The areas of the finished table. */
  function TableArea(memoryEnd: nat, i: nat): Area
    requires memoryEnd <= 0x0101_0000 && i < AREAS
  {
    if i == 0 then Area(memoryEnd + 0x3000_0000, 0x01E2_0000 - memoryEnd)
    else Area(MEM_VALS[i - 1].0, MEM_VALS[i - 1].1 - MEM_VALS[i - 1].0)
  }

  function TableAreas(memoryEnd: nat): (r: seq<Area>)
    requires memoryEnd <= 0x0101_0000
    ensures |r| == AREAS && forall i :: 0 <= i < AREAS ==> r[i] == TableArea(memoryEnd, i)
  {
    seq(AREAS, i requires 0 <= i < AREAS => TableArea(memoryEnd, i))
  }

  /** The first `n` entries are filled in and linked, and the last of them ends the chain. */
  ghost predicate Filled(nodes: seq<MemArea>, areas: seq<Area>, n: nat)
    requires n <= |nodes| && n <= |areas|
    reads nodes
  {
    && (forall i {:trigger nodes[i].address} :: 0 <= i < n ==> nodes[i].address == areas[i].address)
    && (forall i {:trigger nodes[i].size} :: 0 <= i < n ==> nodes[i].size == areas[i].size)
    && (forall i {:trigger nodes[i].next} :: 0 <= i < n ==> nodes[i].next == AreaAt(nodes[..n], i + 1))
  }

  /** Fills in one entry and links the one before it. */
  method AddArea(table: array<MemArea>, start: int, end: int, index: nat, ghost areas: seq<Area>)
    requires index < table.Length && index < |areas| && Distinct(table[..])
    requires 0 <= start <= end < TWO_TO_32 && areas[index] == Area(start, end - start)
    requires Filled(table[..], areas, index)
    modifies table[..]
    ensures Filled(table[..], areas, index + 1)
  {
    ghost var nodes := table[..];
    var area := table[index];
    assert area == nodes[index];
    area.address := Wrap32(start);
    area.size := Wrap32(end - start);
    area.next := null;
    if index > 0 {
      assert table[index - 1] == nodes[index - 1];
      table[index - 1].next := area;
    }
    assert forall i :: 0 <= i < index ==> nodes[..index][i] == nodes[i];
    assert forall i :: 0 <= i <= index ==> nodes[..index + 1][i] == nodes[i];
  }

  /** The list of values ends at its first entry without a start, and gives the areas behind the first. */
  ghost predicate Describes(vals: seq<(nat, nat)>, areas: seq<Area>) {
    && |vals| == |areas| && vals != [] && vals[|vals| - 1].0 == 0
    && (forall i :: 0 <= i < |vals| - 1 ==> 0 < vals[i].0 <= vals[i].1 < TWO_TO_32)
    && (forall i :: 0 <= i < |vals| - 1 ==> areas[i + 1] == Area(vals[i].0, vals[i].1 - vals[i].0))
  }

  lemma TableDescribed(memoryEnd: nat)
    requires memoryEnd <= 0x0101_0000
    ensures Describes(MEM_VALS, TableAreas(memoryEnd))
  {
  }

  /** Adds the areas behind the first. */
  method AddValues(table: array<MemArea>, vals: seq<(nat, nat)>, ghost areas: seq<Area>)
    requires table.Length == |areas| && Distinct(table[..]) && Describes(vals, areas) && Filled(table[..], areas, 1)
    modifies table[..]
    ensures Filled(table[..], areas, |areas|)
  {
    var i := 0;
    while vals[i].0 != 0
      invariant i < |vals| && Filled(table[..], areas, i + 1)
      decreases |vals| - i
    {
      AddArea(table, vals[i].0, vals[i].1, i + 1, areas);
      i := i + 1;
    }
  }

  /** Builds the table. */
  method InitAreaTable(table: array<MemArea>, memoryEnd: nat)
    requires table.Length == AREAS && Distinct(table[..]) && memoryEnd <= 0x0101_0000
    modifies table[..]
    ensures Linked(table[..]) && Regions(table[..]) == TableAreas(memoryEnd)
  {
    ghost var areas := TableAreas(memoryEnd);
    AddArea(table, memoryEnd + 0x3000_0000, 0x3000_0000 + 0x01E2_0000, 0, areas);
    TableDescribed(memoryEnd);
    AddValues(table, MEM_VALS, areas);
    FilledIsTable(table[..], areas);
  }

  lemma FilledIsTable(nodes: seq<MemArea>, areas: seq<Area>)
    requires |nodes| == |areas| && Filled(nodes, areas, |nodes|)
    ensures Linked(nodes) && Regions(nodes) == areas
  {
    assert nodes[..|nodes|] == nodes;
  }

  /** No two areas of the table overlap, wherever the application ends. */
  lemma TableIsDisjoint(end: nat, args: nat)
    ensures var memoryEnd := ApplicationEnd(end) + ArgsSize(args);
            && memoryEnd <= 0x0101_0000 && DisjointAreas(TableAreas(memoryEnd))
            && Inside(TableAreas(memoryEnd), 0x4000_0000)
  {
  }

  /** How much the first `k` areas hold. */
  function RoomTo(memoryEnd: nat, k: nat): int
    requires memoryEnd <= 0x0101_0000 && k <= AREAS
  {
    if k == 0 then 0 else RoomTo(memoryEnd, k - 1) + TableArea(memoryEnd, k - 1).size
  }

  lemma {:induction false} CapacityIsRoom(memoryEnd: nat, areas: seq<Area>, k: nat)
    requires memoryEnd <= 0x0101_0000 && areas == TableAreas(memoryEnd) && k <= AREAS
    ensures Capacity(areas[..k]) == RoomTo(memoryEnd, k)
  {
    if k > 0 {
      CapacityIsRoom(memoryEnd, areas, k - 1);
      CapacityStep(areas, k - 1);
    }
  }

  lemma FirstRoom(memoryEnd: nat)
    requires memoryEnd <= 0x0101_0000
    ensures RoomTo(memoryEnd, 5) == 0x0424_FE68 - memoryEnd
  {
    assert RoomTo(memoryEnd, 1) == 0x01E2_0000 - memoryEnd;
    assert RoomTo(memoryEnd, 3) == RoomTo(memoryEnd, 2) + (0x293F6000 - 0x29030800);
  }

  /** How much all the areas hold together: the more memory the application takes, the less. */
  lemma TableRoom(memoryEnd: nat)
    requires memoryEnd <= 0x0101_0000
    ensures Capacity(TableAreas(memoryEnd)) == 0x0545_0760 - memoryEnd
  {
    var areas := TableAreas(memoryEnd);
    CapacityIsRoom(memoryEnd, areas, AREAS);
    FirstRoom(memoryEnd);
    assert RoomTo(memoryEnd, 7) == RoomTo(memoryEnd, 6) + (0x2E000000 - 0x2D8AD3D8);
    assert RoomTo(memoryEnd, 9) == RoomTo(memoryEnd, 8) + (0x2A1B9000 - 0x2A057B68);
    assert areas[..AREAS] == areas;
  }

  /** Copies over any chain: the areas then hold the image in order, and what is outside them is unchanged. */
  method CopyImage(memory: Memory, table: MemArea, image: string, ghost nodes: seq<MemArea>, ghost areas: seq<Area>)
    returns (ok: bool)
    requires Loadable(nodes, areas, |memory.bytes|, |image|) && table == nodes[0]
    modifies memory
    ensures ok <==> |image| <= Capacity(areas)
    ensures |memory.bytes| == |old(memory.bytes)| && Inside(areas, |memory.bytes|)
    ensures ok ==> image <= Gather(memory.bytes, areas)
    ensures forall a :: 0 <= a < |memory.bytes| && !Covered(areas, a) ==> memory.bytes[a] == old(memory.bytes)[a]
  {
    ghost var was := memory.bytes;
    ok := CopyOverAreas(memory, table, image, nodes, areas);
    if ok {
      GatherImage(memory.bytes, areas, image, |image|);
      assert image[..|image|] == image;
    }
    forall a | 0 <= a < |memory.bytes| && !Covered(areas, a)
      ensures memory.bytes[a] == was[a]
    {
      OutsideUnchanged(was, memory.bytes, areas, if ok then |image| else Capacity(areas), a);
    }
  }

  lemma TableIsLoadable(nodes: seq<MemArea>, end: nat, args: nat, room: nat, length: nat)
    requires ApplicationEnd(end) + ArgsSize(args) <= 0x0101_0000
    requires Linked(nodes) && Regions(nodes) == TableAreas(ApplicationEnd(end) + ArgsSize(args)) && |nodes| == AREAS
    requires room >= 0x4000_0000 && length < 0x8000_0000
    ensures Loadable(nodes, TableAreas(ApplicationEnd(end) + ArgsSize(args)), room, length)
  {
    TableIsDisjoint(end, args);
  }

  /** Where the application's memory ends, with its arguments: rounded up behind the program, or at most so far. */
  function MemoryEnd(end: nat, args: nat): (r: nat)
    ensures r <= 0x0101_0000
    ensures var start := if end < 0x0100_0000 then end else 0x0080_2000;
            && (args <= 0x10000 ==> start + args <= r < start + args + 8 && (r - start) % 8 == 0)
            && (0x10000 < args < 0xFFFF_FFF9 ==> r == start + 0x10000)
  {
    ApplicationEnd(end) + ArgsSize(args)
  }

  const RPX_MAGIC: nat := 0xCAFE
  const LOAD_LIMIT: nat := 0x0100_0000

  /** Builds the table and copies the image over it. */
  method CopyRpx(memory: Memory, table: array<MemArea>, image: string, end: nat, args: nat) returns (ok: bool)
    requires table.Length == AREAS && Distinct(table[..])
    requires Linked(table[..]) && Regions(table[..]) == TableAreas(MemoryEnd(end, args))
    requires |memory.bytes| >= 0x4000_0000 && |image| < 0x8000_0000
    modifies memory
    ensures ok <==> |image| <= Capacity(TableAreas(MemoryEnd(end, args)))
    ensures Loaded(memory.bytes, old(memory.bytes), TableAreas(MemoryEnd(end, args)), image, ok)
  {
    TableIsLoadable(table[..], end, args, |memory.bytes|, |image|);
    ok := CopyImage(memory, table[0], image, table[..], TableAreas(MemoryEnd(end, args)));
  }

  /** The areas hold the image, if it was loaded, and what is outside of them is as it was. */
  ghost predicate Loaded(mem: string, was: string, areas: seq<Area>, image: string, ok: bool) {
    && |mem| == |was| && Inside(areas, |mem|)
    && (ok ==> image <= Gather(mem, areas))
    && forall a :: 0 <= a < |mem| && !Covered(areas, a) ==> mem[a] == was[a]
  }

  /**
   * Loads an image: an executable of the console is copied over the areas of the table, any other behind the
   * application in its own address space, `low`. `magic` is the word at offset 7 of the image. The result is the
   * length of the image, or -1 exactly when there is no room for it.
   */
  method HomebrewCopyMemory(memory: Memory, low: Memory, table: array<MemArea>, image: string, magic: nat,
                            end: nat, args: nat)
    returns (r: int)
    requires table.Length == AREAS && Distinct(table[..]) && memory != low
    requires |memory.bytes| >= 0x4000_0000 && |low.bytes| >= LOAD_LIMIT && |image| < 0x8000_0000
    modifies memory, low, table[..]
    ensures r == -1 || r == |image|
    ensures magic == RPX_MAGIC ==> (r == |image| <==> |image| <= 0x0545_0760 - MemoryEnd(end, args))
    ensures magic == RPX_MAGIC ==>
              Loaded(memory.bytes, old(memory.bytes), TableAreas(MemoryEnd(end, args)), image, r == |image|)
    ensures magic == RPX_MAGIC ==> low.bytes == old(low.bytes)
    ensures magic != RPX_MAGIC ==> memory.bytes == old(memory.bytes)
    ensures magic != RPX_MAGIC ==>
              (r == |image| <==> MemoryEnd(end, args) < LOAD_LIMIT && MemoryEnd(end, args) + |image| <= LOAD_LIMIT)
    ensures magic != RPX_MAGIC && r == |image| ==>
              low.bytes == Written(old(low.bytes), MemoryEnd(end, args), image)
    ensures magic != RPX_MAGIC && r == -1 ==> low.bytes == old(low.bytes)
  {
    InitAreaTable(table, MemoryEnd(end, args));
    TableRoom(MemoryEnd(end, args));
    var dataAddr := MemoryEnd(end, args);
    if magic != RPX_MAGIC {
      if dataAddr >= LOAD_LIMIT {
        return -1;
      }
    } else {
      FirstArea(table[..], MemoryEnd(end, args));
      dataAddr := table[0].address;
    }
    if dataAddr < LOAD_LIMIT {
      if Wrap32(dataAddr + |image|) > LOAD_LIMIT {
        return -1;
      }
      low.Store(dataAddr, image, 0, |image|);
      assert image[0..|image|] == image;
    } else {
      var ok := CopyRpx(memory, table, image, end, args);
      if !ok {
        return -1;
      }
    }
    return |image|;
  }

  /** The first area of the table starts far behind what the application can address itself. */
  lemma FirstArea(nodes: seq<MemArea>, memoryEnd: nat)
    requires memoryEnd <= 0x0101_0000 && Regions(nodes) == TableAreas(memoryEnd)
    ensures nodes != [] && nodes[0].address == memoryEnd + 0x3000_0000
  {
    assert Regions(nodes)[0] == TableArea(memoryEnd, 0);
  }
}
