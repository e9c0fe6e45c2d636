/** Reading and writing files through an aligned bounce buffer. */
module SdFat {
  import opened IoBuffers
  import opened Words

  const FS_ALIGNMENT: nat := 0x40
  const CHUNK: nat := 0x4000

  /** Rounds a 32-bit size up to the alignment; the sum wraps. */
  function FsAlign(x: nat): (r: nat)
    ensures r % 0x40 == 0 && r < TWO_TO_32
    ensures x + 63 < TWO_TO_32 ==> x <= r < x + 64
  {
    var sum := Wrap32(x + FS_ALIGNMENT - 1);
    sum - sum % 0x40
  }

  /** The size of the bounce buffer for a transfer. */
  function BufferSize(len: nat): (r: nat)
    ensures r % 0x40 == 0 && r <= CHUNK
    ensures 0 < len && len + FS_ALIGNMENT - 1 < TWO_TO_32 ==> 0 < r
    ensures len + 63 < TWO_TO_32 ==> if len > 0x4000 then r == 0x4000 else len <= r < len + 64
  {
    var aligned := FsAlign(len);
    if aligned > CHUNK then CHUNK else aligned
  }

  /** How a transfer loop ends: everything moved, the device failed, or it moved nothing. */
  datatype End = Complete | Failed | Stalled

  class SdFile {
    var open: bool
    var readable: bool
    var writable: bool
    /** The program's own idea of the position. */
    var pos: nat
    /** What the device holds from its position on, and what it has been given so far. */
    var ahead: string
    var given: string
    /** The device's last answer was a failure, or an acceptance of nothing. */
    var failed: bool
    var refused: bool

    /** The device reads up to `count` bytes into the buffer; nothing only at the end of the file. */
    method FsReadFile(buffer: array<char>, count: nat) returns (result: int)
      requires count <= buffer.Length
      modifies buffer, this`ahead, this`failed
      ensures result <= count && (failed <==> result < 0)
      ensures result < 0 ==> ahead == old(ahead)
      ensures result >= 0 ==>
        result <= |old(ahead)| && buffer[..result] == old(ahead)[..result] && ahead == old(ahead)[result..]
      ensures result == 0 <==> !(result < 0) && (count == 0 || old(ahead) == "")
    {
      failed := *;
      if failed {
        return -1;
      }
      var wanted: int := *;
      var most := if |ahead| <= count then |ahead| else count;
      var n: nat := if most == 0 then 0 else if wanted < 1 then 1 else if wanted > most then most else wanted;
      CopyIn(buffer, 0, ahead[..n]);
      assert buffer[..n] == buffer[0..n];
      ahead := ahead[n..];
      result := n;
    }

    /** The device accepts some prefix of what the buffer offers. */
    method FsWriteFile(buffer: array<char>, count: nat) returns (result: int)
      requires count <= buffer.Length
      modifies this`given, this`failed, this`refused
      ensures result <= count && (failed <==> result < 0) && (refused <==> result == 0)
      ensures result < 0 ==> given == old(given)
      ensures result >= 0 ==> given == old(given) + buffer[..result]
    {
      failed := *;
      refused := false;
      if failed {
        return -1;
      }
      var wanted: int := *;
      var n: nat := if wanted < 0 then 0 else if wanted > count then count else wanted;
      given := given + buffer[..n];
      refused := n == 0;
      result := n;
    }

    /** The reading loop has moved `done` bytes of `file` to the front of `all`, whose end is still `tail`. */
    static predicate Moved(all: string, ahead: string, file: string, tail: string, len: nat, done: nat) {
      && done <= len <= |all| && done <= |file| && all[..done] == file[..done] && ahead == file[done..]
      && all[len..] == tail
    }

    ghost predicate Reading(ptr: array<char>, file: string, tail: string, start: nat, len: nat, done: nat)
      reads this, ptr
    {
      Moved(ptr[..], ahead, file, tail, len, done) && pos == start + done
    }

    /** A chunk of which `result` bytes were read is now behind the first `done` bytes. */
    static lemma ChunkMoved(was: string, all: string, chunk: string, ahead: string, ahead': string, file: string,
                            tail: string, len: nat, done: nat, result: nat)
      requires Moved(was, ahead, file, tail, len, done) && result <= |chunk| && result <= |ahead|
      requires done + |chunk| <= len <= |all| == |was| && all[..done] == was[..done] && all[len..] == was[len..]
      requires all[done..done + |chunk|] == chunk && chunk[..result] == ahead[..result] && ahead' == ahead[result..]
      ensures Moved(all, ahead', file, tail, len, done + result)
    {
      assert all[..done + result] == all[..done] + all[done..done + |chunk|][..result];
      assert file[..done + result] == file[..done] + file[done..][..result];
    }

    /** One chunk: read into the bounce buffer, and copy the whole chunk, however little of it was read. */
    method ReadChunk(ptr: array<char>, tmp: array<char>, len: nat, done: nat, ghost file: string, ghost tail: string,
                     ghost start: nat)
      returns (result: int)
      requires Reading(ptr, file, tail, start, len, done) && done < len && tmp != ptr && tmp.Length == BufferSize(len)
      modifies this`ahead, this`pos, this`failed, ptr, tmp
      ensures failed <==> result < 0
      ensures 0 <= result ==> Reading(ptr, file, tail, start, len, done + result)
      ensures result < 0 ==> Reading(ptr, file, tail, start, len, done)
      ensures result == 0 ==> tmp.Length == 0 || done == |file|
    {
      ghost var was, unread := ptr[..], ahead;
      var size := if tmp.Length < len - done then tmp.Length else len - done;
      result := FsReadFile(tmp, size);
      if result > 0 {
        var chunk := tmp[..size];
        assert chunk[..result] == tmp[..result];
        CopyChunk(ptr, done, chunk, len);
        ChunkMoved(was, ptr[..], chunk, unread, ahead, file, tail, len, done, result);
        pos := pos + result;
      }
    }

    /** Copying a chunk leaves what is before it and what is past `len` alone. */
    method CopyChunk(ptr: array<char>, done: nat, chunk: string, len: nat)
      requires done + |chunk| <= len <= ptr.Length
      modifies ptr
      ensures ptr[..][..done] == old(ptr[..])[..done] && ptr[..][len..] == old(ptr[..])[len..]
      ensures ptr[..][done..done + |chunk|] == chunk
    {
      ghost var was := ptr[..];
      CopyIn(ptr, done, chunk);
      CopiedAround(was, ptr[..], done, chunk, len);
    }

    static lemma CopiedAround(was: string, all: string, done: nat, chunk: string, len: nat)
      requires done + |chunk| <= len <= |all| == |was|
      requires all[..done] == was[..done] && all[done..done + |chunk|] == chunk
      requires all[done + |chunk|..] == was[done + |chunk|..]
      ensures all[len..] == was[len..]
    {
      assert all[len..] == all[done + |chunk|..][len - (done + |chunk|)..];
      assert was[len..] == was[done + |chunk|..][len - (done + |chunk|)..];
    }

    /**
     * Reads up to `len` bytes. However the device cuts them up, the front of `ptr` then holds the file's next
     * bytes, the position has moved past exactly those, and nothing beyond `ptr[len]` is touched. A failing
     * device makes the result 0, although the position has moved.
     */
    method Read(ptr: array<char>, len: nat) returns (done: nat, ghost end: End, ghost moved: nat)
      requires len <= ptr.Length && len < TWO_TO_32
      modifies this`ahead, this`pos, this`failed, ptr
      ensures !open || !readable ==> done == 0 && moved == 0
      ensures moved <= |old(ahead)| && moved <= len
      ensures ptr[..moved] == old(ahead)[..moved] && ahead == old(ahead)[moved..] && pos == old(pos) + moved
      ensures ptr[len..] == old(ptr[len..])
      ensures done == (if end.Failed? then 0 else moved) && (end.Failed? ==> failed)
      ensures open && readable && !end.Failed? && len + FS_ALIGNMENT - 1 < TWO_TO_32 ==>
                moved == if len <= |old(ahead)| then len else |old(ahead)|
    {
      done, moved, end := 0, 0, Complete;
      if !open || !readable {
        return;
      }
      ghost var file, tail, start := ahead, ptr[len..], pos;
      var tmp := new char[BufferSize(len)];
      while done < len
        invariant done == moved && Reading(ptr, file, tail, start, len, done)
        decreases len - done
      {
        var result := ReadChunk(ptr, tmp, len, done, file, tail, start);
        if result < 0 {
          done, end := 0, Failed;
          return;
        } else if result == 0 {
          end := Stalled;
          return;
        }
        done := done + result;
        moved := done;
      }
    }

    static lemma FrontOfPart(all: string, part: string, at: nat, size: nat, k: nat)
      requires at + size <= |all| && part == all[at..at + size] && k <= size
      ensures part[..k] == all[at..at + k]
    {
    }

    /** One chunk: copy it into the bounce buffer and offer it to the device. */
    method WriteChunk(ptr: array<char>, tmp: array<char>, len: nat, done: nat) returns (result: int)
      requires done < len <= ptr.Length && tmp != ptr && tmp.Length == BufferSize(len)
      modifies this`given, this`pos, this`failed, this`refused, tmp
      ensures (failed <==> result < 0) && (refused <==> result == 0)
      ensures 0 <= result ==>
        done + result <= len && given == old(given) + ptr[done..done + result] && pos == old(pos) + result
      ensures result < 0 ==> given == old(given) && pos == old(pos)
    {
      var size := if tmp.Length < len - done then tmp.Length else len - done;
      CopyIn(tmp, 0, ptr[done..done + size]);
      assert tmp[..size] == tmp[0..size];
      result := FsWriteFile(tmp, size);
      if result > 0 {
        ghost var offered := tmp[..size];
        assert tmp[..result] == offered[..result];
        FrontOfPart(ptr[..], offered, done, size, result);
        assert ptr[done..done + size] == ptr[..][done..done + size];
        assert ptr[done..done + result] == ptr[..][done..done + result];
        pos := pos + result;
      }
    }

    /**
     * Writes up to `len` bytes. However the device cuts them up, it has been given exactly the front of `ptr`,
     * in order and once, and the position has moved past exactly that. A device that accepts nothing of a
     * chunk makes the result 0, although the position has moved.
     */
    method Write(ptr: array<char>, len: nat) returns (done: nat, ghost end: End, ghost moved: nat)
      requires len <= ptr.Length && len < TWO_TO_32
      modifies this`given, this`pos, this`failed, this`refused
      ensures !open || !writable ==> done == 0 && moved == 0
      ensures moved <= len && given == old(given) + ptr[..moved] && pos == old(pos) + moved
      ensures end.Complete? && open && writable ==> moved == len
      ensures (end.Failed? ==> failed) && (end.Stalled? ==> refused)
      ensures len + FS_ALIGNMENT - 1 < TWO_TO_32 ==> done == if end.Stalled? then 0 else moved
    {
      done, moved, end := 0, 0, Complete;
      assert given + ptr[..0] == given;
      if !open || !writable {
        return;
      }
      ghost var before, start := given, pos;
      var tmp := new char[BufferSize(len)];
      while done < len
        invariant done == moved <= len && given == before + ptr[..done] && pos == start + done
        decreases len - done
      {
        var result := WriteChunk(ptr, tmp, len, done);
        if result < 0 {
          end := Failed;
          return;
        } else if result == 0 {
          end := Stalled;
          assert ptr[done..done] == "";
          if tmp.Length > 0 {
            done := 0;
          }
          return;
        }
        assert before + ptr[..done] + ptr[done..done + result] == before + (ptr[..done] + ptr[done..done + result]);
        assert ptr[..done] + ptr[done..done + result] == ptr[..done + result];
        done := done + result;
        moved := done;
      }
    }
  }
}
