/** DDM chunks inside JDWP packets: building them, and taking them apart again. */
module DdmPackets {

  newtype Byte = x: int | 0 <= x < 256

  const TWO_32: int := 0x1_0000_0000

  type Word = x: int | 0 <= x < 0x1_0000_0000

  const HEADER_LEN: int := 11
  const DDM_HEADER_LEN: int := 19
  const DDM_COMMAND_SET: Byte := 199
  const DDM_COMMAND: Byte := 1

  /** Commands have flags 0, replies 0x80. */
  datatype PacketType = Cmd | Reply

  function Flags(t: PacketType): Byte { if t.Cmd? then 0 else 0x80 }

  /** The four bytes of a word, most significant first. */
  function ByteOf(w: Word, i: int): Byte
    requires 0 <= i < 4
  {
    if i == 0 then (w / 256 / 256 / 256) as Byte
    else if i == 1 then (w / 256 / 256 % 256) as Byte
    else if i == 2 then (w / 256 % 256) as Byte
    else (w % 256) as Byte
  }

  function BigEndian(w: Word): (bytes: seq<Byte>)
    ensures |bytes| == 4
  {
    [ByteOf(w, 0), ByteOf(w, 1), ByteOf(w, 2), ByteOf(w, 3)]
  }

  function WordAt(bytes: seq<Byte>, at: int): (w: Word)
    requires 0 <= at && at + 4 <= |bytes|
  {
    ((bytes[at] as int * 256 + bytes[at + 1] as int) * 256 + bytes[at + 2] as int) * 256 + bytes[at + 3] as int
  }

  lemma WordRoundTrip(w: Word)
    ensures WordAt(BigEndian(w), 0) == w
  {
    var x := w / 256;
    var y := x / 256;
    assert w == x * 256 + w % 256 && x == y * 256 + x % 256 && y == y / 256 * 256 + y % 256;
  }

  /** Storing a size in 32 bits. */
  function Truncated(n: nat): Word { n % TWO_32 }

  function Header(id: Word, t: PacketType, chunk: Word, size: nat): (h: seq<Byte>)
    ensures |h| == DDM_HEADER_LEN
  {
    BigEndian(Truncated(DDM_HEADER_LEN + size)) + BigEndian(id) + [Flags(t)]
    + (if t.Cmd? then [DDM_COMMAND_SET, DDM_COMMAND] else [0, 0])
    + BigEndian(chunk) + BigEndian(Truncated(size))
  }

  function Packet(id: Word, t: PacketType, chunk: Word, data: seq<Byte>): seq<Byte> {
    Header(id, t, chunk, |data|) + data
  }

  /** Writes a word and advances; what was written before stays. */
  method PutWord(pkt: array<Byte>, at: int, w: Word) returns (at': int)
    requires 0 <= at && at + 4 <= pkt.Length
    modifies pkt
    ensures at' == at + 4
    ensures pkt[..at'] == old(pkt[..at]) + BigEndian(w)
  {
    pkt[at], pkt[at + 1], pkt[at + 2], pkt[at + 3] := ByteOf(w, 0), ByteOf(w, 1), ByteOf(w, 2), ByteOf(w, 3);
    at' := at + 4;
  }

  method PutByte(pkt: array<Byte>, at: int, b: Byte) returns (at': int)
    requires 0 <= at < pkt.Length
    modifies pkt
    ensures at' == at + 1
    ensures pkt[..at'] == old(pkt[..at]) + [b]
  {
    pkt[at] := b;
    at' := at + 1;
  }

  /** The bytes `SendDdmPacket` hands to `writev`. */
  method BuildPacket(id: Word, t: PacketType, chunk: Word, data: seq<Byte>) returns (bytes: seq<Byte>)
    ensures bytes == Packet(id, t, chunk, data)
  {
    hide BigEndian;
    var pkt := new Byte[19];
    var at := PutWord(pkt, 0, Truncated(DDM_HEADER_LEN + |data|));
    at := PutWord(pkt, at, id);
    at := PutByte(pkt, at, Flags(t));
    match t {
      case Cmd =>
        at := PutByte(pkt, at, DDM_COMMAND_SET);
        at := PutByte(pkt, at, DDM_COMMAND);
      case Reply =>
        at := PutByte(pkt, at, 0);
        at := PutByte(pkt, at, 0);
    }
    at := PutWord(pkt, at, chunk);
    at := PutWord(pkt, at, Truncated(|data|));
    assert pkt[..] == pkt[..at] == Header(id, t, chunk, |data|);
    bytes := pkt[..] + data;
  }

  // --- Receiving -----------------------------------------------------------------------------------

  /** What becomes of the readable bytes of the socket: the connection is closed, the agent has to
      be loaded, a malformed packet is dropped, or a chunk is handled. */
  datatype Reception = Close | LoadAgent | Drop(used: int) | Chunk(used: int, id: Word, chunk: Word, data: seq<Byte>)

  /** The field reads of `HandleDataWithoutAgent`. */
  function Receive(input: seq<Byte>): Reception {
    if input == [] then Close
    else if |input| < HEADER_LEN then LoadAgent
    else
      var length, id := WordAt(input, 0), WordAt(input, 4);
      if input[9] != DDM_COMMAND_SET || input[10] != DDM_COMMAND || length < HEADER_LEN then LoadAgent
      else if |input| < length then LoadAgent
      else ReceivePacket(id, input[..length])
  }

  /** `packet` holds exactly the declared number of bytes, so no read goes past them. */
  function ReceivePacket(id: Word, packet: seq<Byte>): (r: Reception)
    requires HEADER_LEN <= |packet|
    ensures r.Drop? || r.Chunk?
    ensures r.used == |packet|
    ensures r.Chunk? ==>
      DDM_HEADER_LEN + |r.data| <= |packet| && r.data == packet[DDM_HEADER_LEN..DDM_HEADER_LEN + |r.data|]
  {
    var size := |packet| - HEADER_LEN;
    if size < 8 then Drop(|packet|)
    else
      var chunk, length := WordAt(packet, HEADER_LEN), WordAt(packet, HEADER_LEN + 4);
      if length > size - 8 then Drop(|packet|)
      else Chunk(|packet|, id, chunk, packet[DDM_HEADER_LEN..DDM_HEADER_LEN + length])
  }

  /** Only the declared bytes matter: what is used is the declared length, and whatever else there
      is in the socket changes nothing. */
  lemma OnlyDeclaredBytesMatter(input: seq<Byte>, other: seq<Byte>)
    requires Receive(input).Drop? || Receive(input).Chunk?
    ensures HEADER_LEN <= |input| && Receive(input).used == WordAt(input, 0) <= |input|
    ensures Receive(input[..WordAt(input, 0)] + other) == Receive(input)
  {
    var length := WordAt(input, 0);
    var input' := input[..length] + other;
    assert input'[..length] == input[..length];
    assert WordAt(input', 0) == WordAt(input, 0) && WordAt(input', 4) == WordAt(input, 4);
  }

  lemma WordWithin(bytes: seq<Byte>, at: int, w: Word)
    requires 0 <= at && at + 4 <= |bytes| && bytes[at..at + 4] == BigEndian(w)
    ensures WordAt(bytes, at) == w
  {
    WordRoundTrip(w);
    var four := bytes[at..at + 4];
    assert four[0] == bytes[at] && four[1] == bytes[at + 1] && four[2] == bytes[at + 2] && four[3] == bytes[at + 3];
  }

  /** The fields of a header are where the receiver looks for them. */
  lemma HeaderFields(id: Word, t: PacketType, chunk: Word, size: nat, rest: seq<Byte>)
    ensures var p := Header(id, t, chunk, size) + rest;
      && WordAt(p, 0) == Truncated(DDM_HEADER_LEN + size) && WordAt(p, 4) == id
      && (t.Cmd? <==> p[9] == DDM_COMMAND_SET && p[10] == DDM_COMMAND)
      && WordAt(p, 11) == chunk && WordAt(p, 15) == Truncated(size)
  {
    var h := Header(id, t, chunk, size);
    var p := h + rest;
    assert h[0..4] == BigEndian(Truncated(DDM_HEADER_LEN + size));
    assert h[4..8] == BigEndian(id);
    assert h[11..15] == BigEndian(chunk);
    assert h[15..19] == BigEndian(Truncated(size));
    assert p[0..4] == h[0..4] && p[4..8] == h[4..8] && p[11..15] == h[11..15] && p[15..19] == h[15..19];
    WordWithin(p, 0, Truncated(DDM_HEADER_LEN + size));
    WordWithin(p, 4, id);
    WordWithin(p, 11, chunk);
    WordWithin(p, 15, Truncated(size));
  }

  lemma ShortPacket(id: Word, chunk: Word, data: seq<Byte>, more: seq<Byte>)
    requires DDM_HEADER_LEN + |data| < TWO_32
    ensures Receive(Packet(id, Cmd, chunk, data) + more) == Chunk(DDM_HEADER_LEN + |data|, id, chunk, data)
  {
    hide Header, WordAt;
    var p, length := Packet(id, Cmd, chunk, data) + more, DDM_HEADER_LEN + |data|;
    assert p == Header(id, Cmd, chunk, |data|) + (data + more);
    HeaderFields(id, Cmd, chunk, |data|, data + more);
    var q := p[..length];
    assert q == Header(id, Cmd, chunk, |data|) + data;
    HeaderFields(id, Cmd, chunk, |data|, data);
    assert q[DDM_HEADER_LEN..length] == data;
  }

  /** A command is received as it was sent, and nothing beyond it is used, if and only if its
      length fits into 32 bits. */
  lemma PacketRoundTrip(id: Word, chunk: Word, data: seq<Byte>, more: seq<Byte>)
    ensures Receive(Packet(id, Cmd, chunk, data) + more) == Chunk(DDM_HEADER_LEN + |data|, id, chunk, data)
       <==> DDM_HEADER_LEN + |data| < TWO_32
  {
    hide Header, WordAt;
    if DDM_HEADER_LEN + |data| < TWO_32 {
      ShortPacket(id, chunk, data, more);
    } else {
      assert Packet(id, Cmd, chunk, data) + more == Header(id, Cmd, chunk, |data|) + (data + more);
      HeaderFields(id, Cmd, chunk, |data|, data + more);
    }
  }

  /** Replies are never taken for commands. */
  lemma ReplyIsNotHandled(id: Word, chunk: Word, data: seq<Byte>, more: seq<Byte>)
    ensures Receive(Packet(id, Reply, chunk, data) + more) == LoadAgent
  {
    var p := Packet(id, Reply, chunk, data) + more;
    assert p == Header(id, Reply, chunk, |data|) + (data + more);
    HeaderFields(id, Reply, chunk, |data|, data + more);
  }

  // --- Byte by byte ---------------------------------------------------------------------------------

  /** The four bytes at a position make up a number, the most significant one first. */
  predicate Spells(bytes: seq<Byte>, at: int, n: int)
    requires 0 <= at && at + 4 <= |bytes|
  {
    n == 0x100_0000 * bytes[at] as int + 0x1_0000 * bytes[at + 1] as int + 0x100 * bytes[at + 2] as int
         + bytes[at + 3] as int
  }

  lemma SpellsWord(bytes: seq<Byte>, at: int, n: int)
    requires 0 <= at && at + 4 <= |bytes|
    ensures Spells(bytes, at, n) <==> WordAt(bytes, at) == n
  {
  }

  /** What is in a packet, byte by byte: its length, the id, the flags, the command or the error code, the
      type of the chunk and its length, and the payload. */
  lemma PacketBytes(id: Word, t: PacketType, chunk: Word, data: seq<Byte>)
    ensures var p := Packet(id, t, chunk, data);
      && |p| == 19 + |data|
      && Spells(p, 0, (19 + |data|) % 0x1_0000_0000) && Spells(p, 4, id)
      && p[8] == (if t == Cmd then 0 else 0x80)
      && p[9] == (if t == Cmd then 199 else 0) && p[10] == (if t == Cmd then 1 else 0)
      && Spells(p, 11, chunk) && Spells(p, 15, |data| % 0x1_0000_0000)
      && p[19..] == data
  {
    hide WordAt, BigEndian, Spells;
    var p := Packet(id, t, chunk, data);
    HeaderFields(id, t, chunk, |data|, data);
    SpellsWord(p, 0, (19 + |data|) % 0x1_0000_0000);
    SpellsWord(p, 4, id);
    SpellsWord(p, 11, chunk);
    SpellsWord(p, 15, |data| % 0x1_0000_0000);
    var h := Header(id, t, chunk, |data|);
    assert p[8] == h[8] && p[9] == h[9] && p[10] == h[10];
    assert p[19..] == data;
  }

  /** What becomes of arbitrary bytes. `length` is what they declare; the chunk is handled exactly if the
      command is the one for chunks, all declared bytes are there, and the chunk fits into them. */
  lemma ReceivedExactlyWhen(input: seq<Byte>, length: int, size: int)
    requires |input| >= 11 ==> Spells(input, 0, length)
    requires |input| >= 19 ==> Spells(input, 15, size)
    ensures Receive(input) == Close <==> |input| == 0
    ensures Receive(input) == LoadAgent <==>
      && |input| > 0
      && (|input| < 11 || input[9] != 199 || input[10] != 1 || length < 11 || length > |input|)
    ensures Receive(input).Chunk? <==>
      && |input| >= 19 && input[9] == 199 && input[10] == 1 && 19 <= length <= |input| && size <= length - 19
    ensures Receive(input).Chunk? ==>
      && Spells(input, 4, Receive(input).id) && Spells(input, 11, Receive(input).chunk)
      && Receive(input).used == length && Receive(input).data == input[19..19 + size]
    ensures Receive(input).Drop? ==> Receive(input).used == length
  {
    if |input| >= 11 {
      SpellsWord(input, 0, length);
      SpellsWord(input, 4, WordAt(input, 4));
      if |input| >= 19 {
        SpellsWord(input, 11, WordAt(input, 11));
        SpellsWord(input, 15, size);
      }
      if 11 <= length <= |input| && input[9] == 199 && input[10] == 1 {
        ReceivedPacket(input, length, size);
      }
    }
  }

  lemma ReceivedPacket(input: seq<Byte>, length: int, size: int)
    requires 11 <= length <= |input| && WordAt(input, 0) == length && input[9] == 199 && input[10] == 1
    requires |input| >= 19 ==> WordAt(input, 15) == size
    ensures Receive(input) ==
      if length < 19 || size > length - 19 then Drop(length)
      else Chunk(length, WordAt(input, 4), WordAt(input, 11), input[19..19 + size])
  {
    var packet := input[..length];
    if length >= 19 {
      assert WordAt(packet, 11) == WordAt(input, 11) && WordAt(packet, 15) == WordAt(input, 15);
      if size <= length - 19 {
        assert packet[19..19 + size] == input[19..19 + size];
      }
    }
  }
}
