/** The acquisition wire format (Professional/caiji.py:75-76, 121, 551-563,
    708-715): a packet is the marker byte 0xAA, a sequence byte, then five
    channel groups of `channels` four-byte values each. */
module Wire {
  import opened Common

  /** `fixed_header`: the byte every packet starts with. */
  const Marker: byte := 0xAA

  /** Channel groups carried by one packet. */
  const GroupsPerPacket: nat := 5

  /** Bytes per channel value (a float32). */
  const ValueSize: nat := 4

  /** The channel counts `change_channel_count` accepts. */
  const MinChannels: nat := 1
  const MaxChannels: nat := 16

  /** `group_data_size`. */
  function GroupSize(channels: nat): nat {
    channels * ValueSize
  }

  /** A group holds a whole number of values, one per channel. */
  lemma GroupSizeAligned(channels: nat)
    ensures GroupSize(channels) % ValueSize == 0 && GroupSize(channels) / ValueSize == channels
  {
  }

  /** `packet_size = 2 + 5 * group_data_size`. */
  function PacketSize(channels: nat): nat {
    2 + GroupsPerPacket * GroupSize(channels)
  }

  /** The channel count a packet size was derived from. */
  function ChannelsOf(size: nat): nat {
    if size < 2 then 0 else (size - 2) / (GroupsPerPacket * ValueSize)
  }

  /** A packet size determines its channel count, and every accepted
      count gives a packet of 22 to 322 bytes. */
  lemma PacketSizeDeterminesChannels(channels: nat)
    ensures ChannelsOf(PacketSize(channels)) == channels
    ensures MinChannels <= channels <= MaxChannels ==> 22 <= PacketSize(channels) <= 322
  {
    assert PacketSize(channels) - 2 == channels * 20;
  }

  /** The 32-bit pattern of one float32 channel value. Its IEEE meaning is
      not modelled; the program only stores, shifts and prints it. */
  newtype word32 = x: int | 0 <= x < 0x1_0000_0000

  /** `struct.unpack('f', b)` up to the float interpretation: four bytes,
      least significant first (the native order of the target machines). */
  function WordOf(b: seq<byte>): word32
    requires |b| == ValueSize
  {
    (b[0] as int + 0x100 * b[1] as int + 0x1_0000 * b[2] as int + 0x100_0000 * b[3] as int) as word32
  }

  /** The four bytes `struct.pack('f', v)` writes for a value. */
  function BytesOf(w: word32): (b: seq<byte>)
    ensures |b| == ValueSize
  {
    var x := w as int;
    [(x % 0x100) as byte, (x / 0x100 % 0x100) as byte,
     (x / 0x1_0000 % 0x100) as byte, (x / 0x100_0000) as byte]
  }

  lemma WordOfBytesOf(w: word32)
    ensures WordOf(BytesOf(w)) == w
  {
    var x := w as int;
    var b := BytesOf(w);
    var q1, q2 := x / 0x100, x / 0x1_0000;
    assert x == q1 * 0x100 + x % 0x100;
    assert q1 == (q1 / 0x100) * 0x100 + q1 % 0x100;
    assert q1 / 0x100 == q2;
    assert q2 == (q2 / 0x100) * 0x100 + q2 % 0x100;
    assert q2 / 0x100 == x / 0x100_0000;
  }

  lemma BytesOfWordOf(b: seq<byte>)
    requires |b| == ValueSize
    ensures BytesOf(WordOf(b)) == b
  {
    var x := WordOf(b) as int;
    var b0, b1, b2, b3 := b[0] as int, b[1] as int, b[2] as int, b[3] as int;
    assert x == b0 + 0x100 * (b1 + 0x100 * (b2 + 0x100 * b3));
    assert x % 0x100 == b0 && x / 0x100 == b1 + 0x100 * (b2 + 0x100 * b3);
    var y := x / 0x100;
    assert y % 0x100 == b1 && y / 0x100 == b2 + 0x100 * b3;
    assert x / 0x1_0000 == y / 0x100;
    var z := y / 0x100;
    assert z % 0x100 == b2 && z / 0x100 == b3;
    assert x / 0x100_0000 == z / 0x100;
  }

  /** `struct.unpack(f'{n}f', group_bytes)`: one word per four bytes. */
  function Unpack(bs: seq<byte>): (ws: seq<word32>)
    requires |bs| % ValueSize == 0
    ensures |ws| * ValueSize == |bs|
    decreases |bs|
  {
    if bs == [] then [] else [WordOf(bs[..ValueSize])] + Unpack(bs[ValueSize..])
  }

  /** Word `i` of an unpacked run is read from bytes `4i` to `4i + 3`. */
  lemma {:induction false} UnpackAt(bs: seq<byte>, i: nat)
    requires |bs| % ValueSize == 0 && i < |bs| / ValueSize
    ensures ValueSize * i + ValueSize <= |bs|
    ensures Unpack(bs)[i] == WordOf(bs[ValueSize * i..ValueSize * i + ValueSize])
    decreases i
  {
    if i > 0 {
      UnpackAt(bs[ValueSize..], i - 1);
      assert bs[ValueSize..][ValueSize * (i - 1)..ValueSize * (i - 1) + ValueSize]
          == bs[ValueSize * i..ValueSize * i + ValueSize];
    }
  }

  /** The bytes of a run of words, the inverse of `Unpack`. */
  function Pack(ws: seq<word32>): (bs: seq<byte>)
    ensures |bs| == ValueSize * |ws|
  {
    if ws == [] then [] else BytesOf(ws[0]) + Pack(ws[1..])
  }

  lemma {:induction false} UnpackPack(ws: seq<word32>)
    ensures Unpack(Pack(ws)) == ws
  {
    if ws != [] {
      var bs := Pack(ws);
      assert bs[..ValueSize] == BytesOf(ws[0]);
      assert bs[ValueSize..] == Pack(ws[1..]);
      WordOfBytesOf(ws[0]);
      UnpackPack(ws[1..]);
    }
  }

  lemma {:induction false} PackUnpack(bs: seq<byte>)
    requires |bs| % ValueSize == 0
    ensures Pack(Unpack(bs)) == bs
    decreases |bs|
  {
    if bs != [] {
      var ws := Unpack(bs);
      assert ws[1..] == Unpack(bs[ValueSize..]);
      BytesOfWordOf(bs[..ValueSize]);
      PackUnpack(bs[ValueSize..]);
      assert bs == bs[..ValueSize] + bs[ValueSize..];
    }
  }
}
