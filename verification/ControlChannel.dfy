/** Reading commands off the control connection. */
module ControlChannel {
  import opened Ctype
  import opened Framing
  import opened IoBuffers
  import opened PathText
  import opened Wrappers

  // ---------- Receiving ----------

  /** What the socket has to offer at one poll; it keeps the bytes that do not fit. */
  datatype Arrival = Bytes(data: string) | WouldBlock | EndOfStream | Failed

  datatype ReadResult = Read(count: nat) | Again | EndOfFile | Error

  /** The part of an arrival that a buffer with this much room takes. */
  function Taken(arrival: Arrival, room: nat): (r: string)
    ensures |r| <= room
  {
    if !arrival.Bytes? then ""
    else if |arrival.data| <= room then arrival.data
    else arrival.data[..room]
  }

  /** Receives into the free part of a buffer; a buffer without room is an error. */
  method NetworkReadBuffer(buffer: IoBuffer, arrival: Arrival) returns (r: ReadResult)
    requires buffer.Valid() && buffer.head < buffer.size && (arrival.Bytes? ==> arrival.data != "")
    modifies buffer`head, buffer.buffer
    ensures buffer.Valid() && buffer.head < buffer.size
    ensures r.Read? <==> old(buffer.Remaining()) > 0 && arrival.Bytes?
    ensures r.Again? <==> old(buffer.Remaining()) > 0 && arrival.WouldBlock?
    ensures r.EndOfFile? <==> old(buffer.Remaining()) > 0 && arrival.EndOfStream?
    ensures buffer.Contents() ==
      old(buffer.Contents()) + if r.Read? then Taken(arrival, old(buffer.Remaining())) else ""
    ensures r.Read? ==> r.count == |Taken(arrival, old(buffer.Remaining()))| > 0
  {
    if buffer.Remaining() == 0 {
      return Error;
    }
    match arrival {
      case WouldBlock => r := Again;
      case EndOfStream => r := EndOfFile;
      case Failed => r := Error;
      case Bytes(data) =>
        var taken := Taken(arrival, buffer.Remaining());
        Fill(buffer, taken);
        r := Read(|taken|);
    }
  }

  /** The bytes go in behind the others, and the rest of the buffer is zeroed. */
  method Fill(buffer: IoBuffer, taken: string)
    requires buffer.Valid() && buffer.head + |taken| < buffer.size
    modifies buffer`head, buffer.buffer
    ensures buffer.Valid() && buffer.head < buffer.size && buffer.Contents() == old(buffer.Contents()) + taken
  {
    var ok := buffer.Append(taken);
    assert |buffer.Contents()| == buffer.head;
  }

  // ---------- One line ----------

  /** The array holds this C string at a position. */
  ghost predicate HoldsAt(a: array<char>, at: nat, text: string)
    reads a
  {
    at + |text| < a.Length && a[at..at + |text|] == text && a[at + |text|] == NUL && NUL !in text
  }

  /** Advances over white space. */
  method SkipSpaces(a: array<char>, from: nat, ghost text: string) returns (i: nat)
    requires HoldsAt(a, from, text)
    ensures i == from + SpaceLen(text) && HoldsAt(a, i, text[SpaceLen(text)..])
  {
    i := from;
    ghost var k := 0;
    while IsSpace(a[i])
      invariant k <= |text| && i == from + k && forall j :: 0 <= j < k ==> IsSpace(text[j])
      decreases |text| - k
    {
      assert k < |text| ==> a[i] == a[from..from + |text|][k];
      i := i + 1;
      k := k + 1;
    }
    assert k < |text| ==> a[i] == a[from..from + |text|][k];
    SpaceLenIs(text, k);
    Suffix(a, from, text, k);
  }

  lemma Suffix(a: array<char>, at: nat, text: string, k: nat)
    requires HoldsAt(a, at, text) && k <= |text|
    ensures HoldsAt(a, at + k, text[k..])
  {
    assert a[at + k..at + |text|] == a[at..at + |text|][k..];
  }

  /** Advances over a word, and gives up at the first character that is not a letter. */
  method SkipWord(a: array<char>, from: nat, ghost text: string) returns (ok: bool, i: nat)
    requires HoldsAt(a, from, text)
    ensures ok <==> AllAlpha(text[..WordLen(text)])
    ensures ok ==> i == from + WordLen(text)
  {
    i := from;
    ghost var k := 0;
    while a[i] != NUL && !IsSpace(a[i])
      invariant k <= |text| && i == from + k && forall j :: 0 <= j < k ==> IsAlpha(text[j])
      decreases |text| - k
    {
      assert a[i] == a[from..from + |text|][k];
      if !IsAlpha(a[i]) {
        WordContains(text, k);
        return false, i;
      }
      i := i + 1;
      k := k + 1;
    }
    assert k < |text| ==> a[i] == a[from..from + |text|][k] && text[k] in text;
    WordLenIs(text, k);
    ok := true;
  }

  /** A character that neither is a space nor comes after one is part of the first word. */
  lemma {:induction false} WordReaches(text: string, k: nat)
    requires k < |text| && (forall j :: 0 <= j < k ==> IsAlpha(text[j])) && !IsSpace(text[k])
    ensures k < WordLen(text)
  {
    if k > 0 {
      assert IsAlpha(text[0]);
      WordReaches(text[1..], k - 1);
    }
  }

  lemma WordContains(text: string, k: nat)
    requires k < |text| && (forall j :: 0 <= j < k ==> IsAlpha(text[j])) && !IsSpace(text[k]) && !IsAlpha(text[k])
    ensures !AllAlpha(text[..WordLen(text)])
  {
    WordReaches(text, k);
    assert text[..WordLen(text)][k] == text[k];
  }

  /** Where the mnemonic and the parameters of a line are, if it is a command. */
  ghost predicate Located(a: array<char>, s: string, mnemonic: nat, command: nat)
    reads a
  {
    var t := s[SpaceLen(s)..];
    && mnemonic < command
    && HoldsAt(a, mnemonic, t[..WordLen(t)])
    && HoldsAt(a, command, AfterWord(t[WordLen(t)..]))
    && mnemonic + WordLen(t) <= command
  }

  /**
   * Finds the mnemonic at the start of a line and ends it with a NUL; `command` is advanced to the first
   * character of what follows.
   */
  method GetMnemonic(line: array<char>, ghost s: string) returns (mnemonic: Option<nat>, command: nat)
    requires HoldsAt(line, 0, s)
    modifies line
    ensures var t := s[SpaceLen(s)..]; var word := t[..WordLen(t)];
            && (mnemonic.Some? <==> word != "" && AllAlpha(word))
            && (mnemonic.Some? ==> Located(line, s, mnemonic.value, command))
  {
    var start := SkipSpaces(line, 0, s);
    ghost var t := s[SpaceLen(s)..];
    FirstChar(line, start, t);
    if line[start] == NUL {
      return None, start;
    }
    var ok, i := SkipWord(line, start, t);
    if !ok {
      return None, i;
    }
    assert t != "";
    NonEmptyWord(s);
    command := EndWord(line, start, i, t);
    mnemonic := Some(start);
  }

  lemma FirstChar(a: array<char>, at: nat, text: string)
    requires HoldsAt(a, at, text)
    ensures a[at] == NUL <==> text == ""
  {
    if text != "" {
      assert a[at..at + |text|][0] == text[0] && text[0] in text;
    }
  }

  lemma NonEmptyWord(s: string)
    requires s[SpaceLen(s)..] != ""
    ensures WordLen(s[SpaceLen(s)..]) > 0
  {
  }

  /** Overwriting the character behind a front of a text leaves the two parts around it. */
  lemma CutText(was: string, now: string, start: nat, n: nat, t: string)
    requires n < |t| && start + |t| <= |was| && was[start..start + |t|] == t && now == was[start + n := NUL]
    ensures now[start..start + n] == t[..n] && now[start + n + 1..start + |t|] == t[n..][1..]
  {
    assert forall j :: 0 <= j < |t| ==> was[start + j] == t[j];
  }

  /** Ends the word at `i`, where there is more text. */
  method CutWord(line: array<char>, start: nat, i: nat, ghost t: string)
    requires HoldsAt(line, start, t) && WordLen(t) < |t| && i == start + WordLen(t)
    modifies line
    ensures HoldsAt(line, start, t[..WordLen(t)]) && HoldsAt(line, i + 1, t[WordLen(t)..][1..])
  {
    ghost var was := line[..];
    line[i] := NUL;
    CutText(was, line[..], start, WordLen(t), t);
    assert line[start..i] == line[..][start..i];
    assert line[i + 1..start + |t|] == line[..][i + 1..start + |t|];
  }

  /** Ends the word at `i` and advances over the white space behind it. */
  method EndWord(line: array<char>, start: nat, i: nat, ghost t: string) returns (command: nat)
    requires HoldsAt(line, start, t) && i == start + WordLen(t)
    modifies line
    ensures HoldsAt(line, start, t[..WordLen(t)]) && i <= command
    ensures HoldsAt(line, command, AfterWord(t[WordLen(t)..]))
  {
    Suffix(line, start, t, WordLen(t));
    FirstChar(line, i, t[WordLen(t)..]);
    if line[i] != NUL {
      command := CutAndSkip(line, start, i, t);
    } else {
      assert t[..WordLen(t)] == t;
      command := i;
    }
  }

  method CutAndSkip(line: array<char>, start: nat, i: nat, ghost t: string) returns (command: nat)
    requires HoldsAt(line, start, t) && WordLen(t) < |t| && i == start + WordLen(t)
    modifies line
    ensures HoldsAt(line, start, t[..WordLen(t)]) && i <= command
    ensures HoldsAt(line, command, AfterWord(t[WordLen(t)..]))
  {
    CutWord(line, start, i, t);
    command := SkipSpaces(line, i + 1, t[WordLen(t)..][1..]);
  }

  /** Puts a C string in upper case, in place. */
  method UpperInPlace(a: array<char>, at: nat, ghost word: string)
    requires HoldsAt(a, at, word) && AllAlpha(word)
    modifies a
    ensures HoldsAt(a, at, Upper(word)) && a[at + |word|..] == old(a[at + |word|..])
  {
    var i := 0;
    ghost var end := at + |word|;
    assert forall k :: 0 <= k < |word| ==> word[k] != NUL;
    while a[at + i] != NUL
      invariant i <= |word| && a[end..] == old(a[end..]) && a[end] == NUL
      invariant forall k :: 0 <= k < i ==> a[at + k] == Upper(word)[k]
      invariant forall k :: i <= k < |word| ==> a[at + k] == word[k]
      invariant a[at + i] == if i < |word| then word[i] else NUL
      decreases |word| - i
    {
      a[at + i] := ToUpper(a[at + i]);
      i := i + 1;
    }
    assert a[at..end] == Upper(word);
    UpperNoNul(word);
  }

  lemma UpperNoNul(word: string)
    requires AllAlpha(word)
    ensures NUL !in Upper(word)
  {
    assert forall k :: 0 <= k < |word| ==> Upper(word)[k] == ToUpper(word[k]) && IsAlpha(word[k]);
  }

  /** The C string at a position. */
  method TextAt(a: array<char>, at: nat, ghost text: string) returns (r: string)
    requires HoldsAt(a, at, text)
    ensures r == text
  {
    forall j | at <= j < at + |text|
      ensures a[j] != NUL
    {
      assert a[j] == a[at..at + |text|][j - at] && text[j - at] in text;
    }
    r := StrDup(a, at, at + |text|);
  }
}
