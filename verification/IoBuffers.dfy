/** A bounded byte buffer that is filled at the end and emptied line by line from the front. */
module IoBuffers {
  import opened Ctype

  // ---------- Bytes in arrays ----------

  predicate AllNul(s: string) {
    forall i :: 0 <= i < |s| ==> s[i] == NUL
  }

  /** Writes bytes into an array, as `memcpy` does. */
  method CopyIn(a: array<char>, at: nat, data: string)
    requires at + |data| <= a.Length
    modifies a
    ensures a[..at] == old(a[..at]) && a[at..at + |data|] == data && a[at + |data|..] == old(a[at + |data|..])
  {
    var i := 0;
    while i < |data|
      invariant i <= |data| && a[..at] == old(a[..at]) && a[at..at + i] == data[..i]
      invariant a[at + |data|..] == old(a[at + |data|..])
    {
      a[at + i] := data[i];
      i := i + 1;
      assert a[at..at + i] == a[at..at + i - 1] + [data[i - 1]];
    }
    assert data[..i] == data;
  }

  /** Moves everything from position `k` on to the front, as the program's `memmove` does. */
  method MoveDown(a: array<char>, k: nat)
    requires k <= a.Length
    modifies a
    ensures a[..a.Length - k] == old(a[k..]) && a[a.Length - k..] == old(a[a.Length - k..])
  {
    var i := 0;
    while i < a.Length - k
      invariant i <= a.Length - k && a[..i] == old(a[k..k + i])
      invariant a[i..] == old(a[i..])
    {
      assert a[k + i] == a[i..][k] && old(a[i..])[k] == old(a[k + i]);
      a[i] := a[k + i];
      i := i + 1;
      assert a[..i] == a[..i - 1] + [a[i - 1]];
      assert a[i..] == a[i - 1..][1..];
    }
  }

  /** Zeroes everything from a position on. */
  method ClearFrom(a: array<char>, from: nat)
    requires from <= a.Length
    modifies a
    ensures a[..from] == old(a[..from]) && AllNul(a[from..])
  {
    var i := from;
    while i < a.Length
      invariant from <= i <= a.Length && a[..from] == old(a[..from])
      invariant forall j :: from <= j < i ==> a[j] == NUL
    {
      a[i] := NUL;
      i := i + 1;
    }
  }

  // ---------- Lines ----------

  /** The position of the first newline, or the length when there is none. */
  function Eol(s: string): (n: nat)
    ensures n <= |s| && (n < |s| ==> s[n] == '\n') && '\n' !in s[..n]
  {
    if s == "" || s[0] == '\n' then 0 else 1 + Eol(s[1..])
  }

  lemma {:induction false} EolIs(s: string, n: nat)
    requires n <= |s| && '\n' !in s[..n] && (n < |s| ==> s[n] == '\n')
    ensures Eol(s) == n
  {
    if n > 0 {
      assert s[0] in s[..n] && s[1..][..n - 1] == s[..n][1..];
      EolIs(s[1..], n - 1);
    }
  }

  /** A carriage return right before the newline; there is none before a newline at the start. */
  predicate HasCr(s: string, eol: nat)
    requires eol <= |s|
  {
    eol > 0 && s[eol - 1] == '\r'
  }

  /** The text of the first line, with its end-of-line characters kept or taken off. */
  function LineText(s: string, preserve: bool): string
    requires Eol(s) < |s|
  {
    if preserve then s[..Eol(s) + 1]
    else if HasCr(s, Eol(s)) then s[..Eol(s) - 1]
    else s[..Eol(s)]
  }

  /** Rounds up to a multiple, and always by at least one. */
  function SizeAlign(size: nat, multipleOf: nat): (r: nat)
    requires multipleOf > 0
    ensures size < r <= size + multipleOf && r % multipleOf == 0
  {
    AlignExact(size, multipleOf);
    size + (multipleOf - size % multipleOf)
  }

  lemma AlignExact(size: nat, m: nat)
    requires m > 0
    ensures (size + (m - size % m)) % m == 0
  {
    var q := size / m;
    assert size + (m - size % m) == m * (q + 1);
    MultipleMod(q + 1, m);
  }

  lemma MultipleMod(q: nat, m: nat)
    requires m > 0
    ensures (m * q) % m == 0
  {
    var d, r := (m * q) / m, (m * q) % m;
    assert m * q == m * d + r;
    Distribute(m, q, d);
    if q > d {
      AtLeast(m, q - d);
    } else if q < d {
      AtLeast(m, d - q);
      Distribute(m, d, q);
    }
  }

  lemma Distribute(m: nat, a: nat, b: nat)
    ensures m * (a - b) == m * a - m * b
  {
  }

  lemma AtLeast(m: nat, k: nat)
    requires k >= 1
    ensures m * k >= m
  {
  }

  function BytesToCopy(eol: nat, hasCr: bool, preserve: bool): int {
    if preserve then eol + 1 else if hasCr then eol - 1 else eol
  }

  /** What taking a line gives: nothing, the length of the text now in `line`, or a write past the end of `line`. */
  datatype NextLine = NoLine | Line(length: nat) | Overrun

  class IoBuffer {
    const buffer: array<char>
    const line: array<char>
    const size: nat
    var head: nat

    constructor (size: nat)
      ensures Valid() && Contents() == "" && this.size == SizeAlign(size, 64) && fresh(buffer) && fresh(line)
    {
      var aligned := SizeAlign(size, 64);
      this.size := aligned;
      buffer := new char[aligned](_ => NUL);
      line := new char[aligned](_ => NUL);
      head := 0;
    }

    ghost predicate Bounded()
      reads this
    {
      buffer != line && buffer.Length == size && line.Length == size && 0 < size && head <= size
    }

    /** For line buffers, the bytes past `head` are always zero. */
    ghost predicate Valid()
      reads this, buffer
    {
      Bounded() && AllNul(buffer[head..])
    }

    ghost function Contents(): string
      reads this, buffer
      requires Bounded()
    {
      buffer[..head]
    }

    /** Room for more, keeping one byte back; negative when the buffer has been filled to the brim. */
    function Remaining(): int
      reads this
    {
      size - 1 - head
    }

    method Append(data: string) returns (ok: bool)
      requires Valid()
      modifies this`head, buffer
      ensures Valid()
      ensures ok <==> |old(Contents())| + |data| <= size
      ensures Contents() == if ok then old(Contents()) + data else old(Contents())
    {
      if head + |data| > size {
        return false;
      }
      ghost var tail := buffer[head..];
      CopyIn(buffer, head, data);
      assert buffer[..head + |data|] == buffer[..head] + buffer[head..head + |data|];
      assert buffer[head + |data|..] == tail[|data|..];
      head := head + |data|;
      ok := true;
    }

    /** Scans for a newline. */
    method FindEol() returns (eol: int)
      requires Valid()
      ensures Eol(Contents()) == |Contents()| ==> eol == -1
      ensures Eol(Contents()) < |Contents()| ==> eol == Eol(Contents())
    {
      var i := 0;
      while i < head
        invariant i <= head && '\n' !in buffer[..i]
      {
        if buffer[i] == '\n' {
          FirstEol(Contents(), i);
          return i;
        }
        assert buffer[..i + 1] == buffer[..i] + [buffer[i]];
        i := i + 1;
      }
      EolIs(Contents(), head);
      return -1;
    }

    lemma FirstEol(s: string, i: nat)
      requires i < |s| && s[i] == '\n' && '\n' !in s[..i]
      ensures Eol(s) == i
    {
      EolIs(s, i);
    }

    /** Takes `k` bytes off the front and zeroes what they leave behind. */
    method DropFront(k: nat)
      requires Valid() && k <= head
      modifies this`head, buffer
      ensures Valid() && Contents() == old(Contents())[k..]
    {
      ghost var was := buffer[..];
      var n := head - k;
      MoveDown(buffer, k);
      assert buffer[..n] == buffer[..size - k][..n] == was[k..][..n] == was[..head][k..];
      head := n;
      ClearFrom(buffer, n);
    }

    /** Copies the first line out and takes it off the buffer. */
    method Next(preserve: bool) returns (r: NextLine)
      requires Valid()
      modifies this`head, buffer, line
      ensures r.Overrun? || Valid()
      ensures r.NoLine? <==> Eol(old(Contents())) == |old(Contents())|
      ensures r.NoLine? ==> Contents() == old(Contents())
      ensures r.Overrun? <==> preserve && Eol(old(Contents())) == size - 1 && |old(Contents())| == size
      ensures r.Line? ==> TookLine(old(Contents()), preserve, r.length)
    {
      var eol := FindEol();
      if eol < 0 {
        return NoLine;
      }
      var hasCr := eol > 0 && buffer[eol - 1] == '\r';
      var bytes := BytesToCopy(eol, hasCr, preserve);
      ghost var text := LineText(Contents(), preserve);
      assert text == buffer[..bytes];
      if bytes >= size {
        return Overrun;
      }
      CopyLine(bytes);
      DropFront(eol + 1);
      r := Line(bytes);
    }

    /** The first line of `s` is in `line`, ended by a NUL, and the rest is what the buffer holds. */
    ghost predicate TookLine(s: string, preserve: bool, length: nat)
      reads this, buffer, line
    {
      && Valid() && Eol(s) < |s| && length < size
      && line[..length] == LineText(s, preserve) && line[length] == NUL
      && Contents() == s[Eol(s) + 1..]
    }

    method CopyLine(bytes: nat)
      requires Valid() && bytes <= head && bytes < size
      modifies line
      ensures line[..bytes] == buffer[..bytes] && line[bytes] == NUL
    {
      CopyIn(line, 0, buffer[..bytes]);
      assert line[..bytes] == line[0..bytes];
      line[bytes] := NUL;
    }
  }
}
