/** Data channels: a store-and-forward copy from one descriptor to another. */
module Dtp {
  import opened IoBuffers

  // ---------- The state byte ----------

  const DTP_PENDING: bv8 := 0
  const DTP_ESTABLISHED: bv8 := 1
  const DTP_SENDING: bv8 := 2
  const DTP_RECVING: bv8 := 3
  const DTP_CLOSED: bv8 := 4
  const DTP_ERROR: bv8 := 5
  const DTP_FREE: bv8 := 6
  const DTP_RECV: bv8 := 0x20
  const DTP_XMIT: bv8 := 0x40
  const DTP_LOCAL_BUF: bv8 := 0x80

  function GetState(state: bv8): bv8 {
    state & 0x0F
  }

  /** Setting the state keeps only the flag for a local buffer. */
  function SetState(state: bv8, code: bv8): (r: bv8)
    ensures code <= 0x0F ==> GetState(r) == code
  {
    SetStateCode(state, code);
    (state & DTP_LOCAL_BUF) | code
  }

  lemma SetStateCode(state: bv8, code: bv8)
    ensures code <= 0x0F ==> ((state & DTP_LOCAL_BUF) | code) & 0x0F == code
  {
  }

  // ---------- The two ends of a transfer ----------

  /** A count brought up to `low` and then down to `high`. */
  function Clamp(count: int, low: nat, high: nat): (n: nat)
    ensures n <= high && (low <= high ==> n >= low)
  {
    if high < low || count >= high then high else if count < low then low else count
  }

  /**
   * The descriptors' other sides: what is still to be read from the source, and what the sink has accepted.
   * A prompt sink accepts at least one byte of what it is offered, or fails.
   */
  class Wire {
    ghost const source: string
    var unread: string
    var written: string
    /** How much the sink was offered last. */
    ghost var offered: nat
    /** How many reads and writes have failed. */
    ghost var failures: nat
    const prompt: bool

    constructor (source: string, prompt: bool)
      ensures this.source == source && unread == source && written == "" && this.prompt == prompt
    {
      this.source := source;
      this.prompt := prompt;
      unread := source;
      written := "";
      offered, failures := 0, 0;
    }

    /** Reads some bytes, none only at the end; a read that would block counts as a failure. */
    method Read(max: nat) returns (nread: int, data: string)
      requires max > 0
      modifies this`unread, this`failures
      ensures nread < 0 ==> unread == old(unread)
      ensures failures == old(failures) + if nread < 0 then 1 else 0
      ensures nread >= 0 ==> nread == |data| <= max && old(unread) == data + unread
      ensures nread == 0 ==> unread == ""
    {
      data := "";
      var fails: bool := *;
      if fails {
        failures := failures + 1;
        return -1, "";
      }
      var count: int := *;
      var n := Clamp(count, 1, if |unread| <= max then |unread| else max);
      nread, data := n, unread[..n];
      unread := unread[n..];
    }

    /** Accepts some prefix of the bytes offered; `again` says that the sink would block. */
    method Write(data: string) returns (nwritten: int, again: bool)
      modifies this`written, this`offered, this`failures
      ensures offered == |data|
      ensures failures == old(failures) + if nwritten < 0 && !again then 1 else 0
      ensures nwritten < 0 ==> written == old(written)
      ensures nwritten >= 0 ==> nwritten <= |data| && written == old(written) + data[..nwritten]
      ensures prompt && nwritten < 0 ==> !again
      ensures prompt && nwritten >= 0 && data != "" ==> nwritten > 0
    {
      offered := |data|;
      var fails: bool := *;
      again := *;
      again := again && !prompt;
      if fails {
        failures := failures + if again then 0 else 1;
        return -1, again;
      }
      var count: int := *;
      var n := Clamp(count, if prompt then 1 else 0, |data|);
      written := written + data[..n];
      nwritten := n;
    }
  }

  /** One data connection. */
  class Channel {
    var next: Channel?
    var state: bv8
    var localFd: int
    var remoteFd: int
    var listenFd: int
    const passive: bool
    const buffer: IoBuffer
    const wire: Wire
    ghost var freed: bool

    constructor (passive: bool, buffer: IoBuffer, wire: Wire)
      ensures next == null && state == DTP_PENDING && localFd == -1 && remoteFd == -1 && !freed
      ensures this.passive == passive && this.buffer == buffer && this.wire == wire
    {
      this.passive := passive;
      this.buffer := buffer;
      this.wire := wire;
      next := null;
      state := DTP_PENDING;
      localFd := -1;
      remoteFd := -1;
      listenFd := -1;
      freed := false;
    }

    /** Nothing is lost or made up on the way, and a closed channel has delivered everything. */
    ghost predicate Conserves()
      reads this`state, buffer, buffer.buffer, wire
    {
      && buffer.Bounded()
      && wire.source == wire.written + buffer.Contents() + wire.unread
      && (GetState(state) == DTP_CLOSED ==> wire.written == wire.source)
    }

    /** How much is left to do: an unread byte is still to be read and to be written. */
    ghost function Measure(): nat
      reads buffer, wire
    {
      2 * |wire.unread| + buffer.head
    }
  }

  /**
   * What there is to say of a channel at one time: its state, its descriptors, how much is left to do, how many reads
   * and writes have failed, whether its sink is prompt, and whether it listens.
   */
  datatype Moment =
    Moment(state: bv8, local: int, remote: int, left: nat, failures: nat, prompt: bool, passive: bool)

  ghost function MomentOf(c: Channel): Moment
    reads c, c.buffer, c.wire
  {
    Moment(c.state, c.localFd, c.remoteFd, c.Measure(), c.wire.failures, c.wire.prompt, c.passive)
  }

  /** Both descriptors are open. */
  predicate Open(m: Moment) {
    m.local >= 0 && m.remote >= 0
  }

  /**
   * One step of a transfer: over before the next one, or still under way between the same descriptors. To a prompt
   * sink it then has less left to do; between descriptors that are not open it does nothing. It ends in an error
   * exactly when a read or a write fails.
   */
  predicate Advances(before: Moment, after: Moment) {
    var code, next := GetState(before.state), GetState(after.state);
    && after.prompt == before.prompt && after.passive == before.passive
    && (next == code || next == DTP_CLOSED || next == DTP_ERROR)
    && (next == code ==> after.state == before.state && after.local == before.local && after.remote == before.remote)
    && (next == code && Open(before) && before.prompt ==> after.left < before.left)
    && (!Open(before) ==> after == before)
    && after.failures >= before.failures && (next == DTP_ERROR <==> after.failures > before.failures)
  }

  // ---------- Copying ----------

  /** The bytes of the transfer are where they should be. */
  ghost predicate Kept(wire: Wire, buffer: IoBuffer)
    reads wire, buffer, buffer.buffer
  {
    buffer.Bounded() && wire.source == wire.written + buffer.Contents() + wire.unread
  }

  /** Drops the first `n` bytes of the buffer, moving the others down. */
  method DropWritten(buffer: IoBuffer, n: nat)
    requires buffer.Bounded() && n <= buffer.head
    modifies buffer`head, buffer.buffer
    ensures buffer.Bounded() && buffer.Contents() == old(buffer.Contents())[n..]
  {
    ghost var was := buffer.buffer[..];
    MoveDown(buffer.buffer, n);
    var head := buffer.head - n;
    assert buffer.buffer[..head] == buffer.buffer[..buffer.size - n][..head] == was[n..][..head];
    buffer.head := head;
  }

  lemma WriteKeeps(source: string, written: string, contents: string, unread: string, n: nat)
    requires n <= |contents| && source == written + contents + unread
    ensures source == written + contents[..n] + contents[n..] + unread
  {
    assert contents[..n] + contents[n..] == contents;
  }

  /** Writes up to a packet from the front of the buffer. */
  method WriteBufferedData(fd: int, wire: Wire, buffer: IoBuffer, packetSize: int) returns (nwritten: int)
    requires Kept(wire, buffer)
    modifies wire`written, wire`offered, wire`failures, buffer`head, buffer.buffer
    ensures Kept(wire, buffer)
    ensures fd < 0 || packetSize < 0 ==> nwritten < 0
    ensures fd >= 0 && packetSize >= 0 ==> wire.failures == old(wire.failures) + if nwritten < 0 then 1 else 0
    ensures fd >= 0 && packetSize >= 0 ==>
      wire.offered == if old(buffer.head) < packetSize then old(buffer.head) else packetSize
    ensures nwritten < 0 ==> wire.written == old(wire.written) && buffer.head == old(buffer.head)
    ensures nwritten >= 0 ==> buffer.head == old(buffer.head) - nwritten && nwritten <= packetSize
    ensures wire.prompt && packetSize > 0 && nwritten >= 0 && old(buffer.head) > 0 ==> nwritten > 0
  {
    if fd < 0 || packetSize < 0 {
      return -1;
    }
    var size := if packetSize > buffer.head then buffer.head else packetSize;
    ghost var contents := buffer.Contents();
    var again;
    nwritten, again := wire.Write(buffer.buffer[..size]);
    if nwritten < 0 {
      return if again then 0 else -1;
    }
    assert buffer.buffer[..size][..nwritten] == contents[..nwritten];
    WriteKeeps(wire.source, old(wire.written), contents, wire.unread, nwritten);
    DropWritten(buffer, nwritten);
  }

  /** Reads into an empty buffer; a buffer that still holds something is left alone. */
  method FillBuffer(buffer: IoBuffer, wire: Wire) returns (nread: int)
    requires Kept(wire, buffer)
    modifies wire`unread, wire`failures, buffer`head, buffer.buffer
    ensures Kept(wire, buffer)
    ensures wire.failures == old(wire.failures) + if nread < 0 then 1 else 0
    ensures old(buffer.head) > 0 ==>
      nread == old(buffer.head) && buffer.head == old(buffer.head) && wire.unread == old(wire.unread)
    ensures nread == 0 ==> buffer.head == 0 && wire.unread == ""
    ensures old(buffer.head) == 0 && nread > 0 ==> buffer.head == nread && |wire.unread| == |old(wire.unread)| - nread
  {
    if buffer.head > 0 {
      return buffer.head;
    }
    var data;
    nread, data := wire.Read(buffer.size);
    if nread >= 0 {
      CopyIn(buffer.buffer, 0, data);
      buffer.head := nread;
      assert buffer.Contents() == buffer.buffer[0..|data|] == data;
      assert wire.written + data + wire.unread == wire.written + (data + wire.unread);
    }
  }

  /** What a round of copying comes to. */
  datatype Copied = Going | Finished | Broken | NotOpen

  /** One round of copying: a packet out, and a refill once the buffer is empty. */
  method CopyRound(to: int, from: int, wire: Wire, buffer: IoBuffer, size: int) returns (r: Copied)
    requires Kept(wire, buffer) && size > 0
    modifies wire, buffer`head, buffer.buffer
    ensures Kept(wire, buffer)
    ensures r.NotOpen? <==> to < 0 || from < 0
    ensures wire.failures == old(wire.failures) + if r.Broken? then 1 else 0
    ensures !r.NotOpen? ==> wire.offered == if old(buffer.head) < size then old(buffer.head) else size
    ensures r.NotOpen? ==>
      wire.written == old(wire.written) && wire.unread == old(wire.unread) && buffer.head == old(buffer.head)
    ensures r.Finished? ==> wire.written == wire.source
    ensures r.Going? && wire.prompt ==> 2 * |wire.unread| + buffer.head < old(2 * |wire.unread| + buffer.head)
  {
    if to < 0 || from < 0 {
      return NotOpen;
    }
    var nwritten := WriteBufferedData(to, wire, buffer, size);
    if nwritten < 0 {
      return Broken;
    }
    var nread := FillBuffer(buffer, wire);
    if nread < 0 {
      return Broken;
    }
    if nread == 0 {
      assert buffer.Contents() == "" && wire.written + "" + "" == wire.written;
      return Finished;
    }
    return Going;
  }

  /** Sets the state after a round. */
  function StateAfter(state: bv8, r: Copied): (s: bv8)
    ensures GetState(s) == if r.Finished? then DTP_CLOSED else if r.Broken? then DTP_ERROR else GetState(state)
    ensures r.Going? || r.NotOpen? ==> s == state
  {
    if r.Finished? then SetState(state, DTP_CLOSED)
    else if r.Broken? then SetState(state, DTP_ERROR)
    else state
  }

  /** Sends a packet: from the local descriptor to the remote one. */
  method SendData(channel: Channel)
    requires channel.Conserves() && GetState(channel.state) == DTP_SENDING
    modifies channel, channel.buffer`head, channel.buffer.buffer, channel.wire
    ensures channel.Conserves() && channel.next == old(channel.next) && channel.freed == old(channel.freed)
    ensures Advances(old(MomentOf(channel)), MomentOf(channel))
    ensures old(channel.localFd) >= 0 && old(channel.remoteFd) >= 0 ==>
      channel.wire.offered == if old(channel.buffer.head) < 1500 then old(channel.buffer.head) else 1500
  {
    var r := CopyRound(channel.remoteFd, channel.localFd, channel.wire, channel.buffer, 1500);
    if r.Finished? {
      channel.localFd, channel.remoteFd := -1, -1;
    }
    channel.state := StateAfter(channel.state, r);
  }

  /** Receives a packet: from the remote descriptor to the local one. */
  method ReceiveData(channel: Channel)
    requires channel.Conserves() && GetState(channel.state) == DTP_RECVING
    modifies channel, channel.buffer`head, channel.buffer.buffer, channel.wire
    ensures channel.Conserves() && channel.next == old(channel.next) && channel.freed == old(channel.freed)
    ensures Advances(old(MomentOf(channel)), MomentOf(channel))
    ensures old(channel.localFd) >= 0 && old(channel.remoteFd) >= 0 ==>
      channel.wire.offered == if old(channel.buffer.head) < 512 then old(channel.buffer.head) else 512
  {
    var r := CopyRound(channel.localFd, channel.remoteFd, channel.wire, channel.buffer, 512);
    if r.Finished? {
      channel.localFd, channel.remoteFd := -1, -1;
    }
    channel.state := StateAfter(channel.state, r);
  }

  /**
   * Sending over and over ends, when the sink is prompt: closed with the whole source delivered, in order and once,
   * exactly unless a read or a write failed.
   */
  method SendToEnd(channel: Channel)
    requires channel.Conserves() && GetState(channel.state) == DTP_SENDING
    requires channel.wire.prompt && channel.localFd >= 0 && channel.remoteFd >= 0
    modifies channel, channel.buffer`head, channel.buffer.buffer, channel.wire
    ensures GetState(channel.state) == DTP_CLOSED || GetState(channel.state) == DTP_ERROR
    ensures GetState(channel.state) == DTP_ERROR <==> channel.wire.failures > old(channel.wire.failures)
    ensures GetState(channel.state) == DTP_CLOSED ==> channel.wire.written == channel.wire.source
    ensures channel.Conserves()
  {
    while GetState(channel.state) == DTP_SENDING
      invariant channel.Conserves() && GetState(channel.state) in {DTP_SENDING, DTP_CLOSED, DTP_ERROR}
      invariant GetState(channel.state) == DTP_SENDING ==> channel.localFd >= 0 && channel.remoteFd >= 0
      invariant channel.wire.failures >= old(channel.wire.failures)
      invariant GetState(channel.state) == DTP_ERROR <==> channel.wire.failures > old(channel.wire.failures)
      decreases GetState(channel.state) == DTP_SENDING, channel.Measure()
    {
      SendData(channel);
    }
  }

  function AsSet(data: Channel?): set<Channel> {
    if data == null then {} else {data}
  }

  /** Leaves a channel to be freed by the next poll. */
  method LetGo(data: Channel?)
    modifies AsSet(data)`state
    ensures data != null ==> data.state == SetState(old(data.state), DTP_FREE)
    ensures data != null && old(data.Conserves()) ==> data.Conserves()
  {
    if data != null {
      data.state := SetState(data.state, DTP_FREE);
    }
  }
}
