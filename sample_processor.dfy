/** The per-packet arithmetic of `process_data_thread`
    (Professional/caiji.py:708-715): the length check, the split of the
    payload into five channel groups, and the back-dating of each group by
    1 ms steps from the packet's arrival time. */
module SampleProcessor {
  import opened Common
  import opened Wire

  /** One channel group, the tuple `(group_timestamp, values, group_index)`
      that is batched for the data file and drawn in the live view. */
  datatype Sample = Sample(timestamp: real, values: seq<word32>, group: nat)

  /** Time between two groups of one packet, in seconds. */
  const GroupSpacing: real := 0.001

  /** `current_time - (5 - 1 - group_index) * 0.001`. */
  function GroupTimestamp(recvTime: real, g: nat): real
    requires g < GroupsPerPacket
  {
    recvTime - (GroupsPerPacket - 1 - g) as real * GroupSpacing
  }

  /** The five timestamps of a packet are 1 ms apart, strictly increasing,
      and the last one is the arrival time itself. */
  lemma GroupTimestampsSpacing(recvTime: real, g: nat, h: nat)
    requires g < h < GroupsPerPacket
    ensures GroupTimestamp(recvTime, h) - GroupTimestamp(recvTime, g) == (h - g) as real * GroupSpacing
    ensures GroupTimestamp(recvTime, g) < GroupTimestamp(recvTime, h)
    ensures GroupTimestamp(recvTime, GroupsPerPacket - 1) == recvTime
    ensures GroupTimestamp(recvTime, 0) == recvTime - 0.004
  {
  }

  /** `payload[start:start + group_data_size]` with
      `payload = binary_data[2:]` and `start = g * group_data_size`. */
  function GroupBytes(packet: seq<byte>, channels: nat, g: nat): (b: seq<byte>)
    requires |packet| == PacketSize(channels) && g < GroupsPerPacket
    ensures |b| == GroupSize(channels)
  {
    var start := 2 + g * GroupSize(channels);
    assert start + GroupSize(channels) <= |packet| by {
      GroupOffsets(g, GroupSize(channels), GroupsPerPacket);
    }
    packet[start..start + GroupSize(channels)]
  }

  /** Group `g` of a packet of the right length. */
  function GroupSample(recvTime: real, packet: seq<byte>, channels: nat, g: nat): (s: Sample)
    requires |packet| == PacketSize(channels) && g < GroupsPerPacket
    ensures s.group == g && |s.values| == channels
    ensures s.timestamp == GroupTimestamp(recvTime, g)
  {
    Sample(GroupTimestamp(recvTime, g), Unpack(GroupBytes(packet, channels, g)), g)
  }

  /** What the processing loop makes of one dequeued packet. */
  datatype Decoded =
    | LengthMismatch(expected: nat, actual: nat)   // the "数据包长度异常" message
    | Groups(samples: seq<Sample>)

  /** The length check and the five groups, in order. */
  function DecodePacket(recvTime: real, packet: seq<byte>, channels: nat): (r: Decoded)
    ensures r.Groups? <==> |packet| == PacketSize(channels)
    ensures r.LengthMismatch? ==> r.expected == PacketSize(channels) && r.actual == |packet|
    ensures r.Groups? ==>
      && |r.samples| == GroupsPerPacket
      && forall g :: 0 <= g < GroupsPerPacket ==> r.samples[g] == GroupSample(recvTime, packet, channels, g)
  {
    if |packet| == PacketSize(channels) then
      Groups(seq(GroupsPerPacket, g requires 0 <= g < GroupsPerPacket => GroupSample(recvTime, packet, channels, g)))
    else
      LengthMismatch(PacketSize(channels), |packet|)
  }

  /** The bytes of the payload groups, one group of values after another. */
  function Payload(vs: seq<seq<word32>>): (b: seq<byte>)
  {
    if vs == [] then [] else Pack(vs[0]) + Payload(vs[1..])
  }

  /** A packet as the device sends it: marker, sequence byte, and five
      groups of `channels` values. */
  function EncodePacket(seqNo: byte, vs: seq<seq<word32>>): seq<byte> {
    [Marker, seqNo] + Payload(vs)
  }

  /** A payload of equal-width groups is their number times the width. */
  lemma {:induction false} PayloadLength(vs: seq<seq<word32>>, channels: nat)
    requires forall i :: 0 <= i < |vs| ==> |vs[i]| == channels
    ensures |Payload(vs)| == |vs| * GroupSize(channels)
  {
    if vs != [] {
      var n := GroupSize(channels);
      assert forall i :: 0 <= i < |vs| - 1 ==> |vs[1..][i]| == channels by {
        forall i | 0 <= i < |vs| - 1 ensures |vs[1..][i]| == channels {
          assert vs[1..][i] == vs[i + 1];
        }
      }
      PayloadLength(vs[1..], channels);
      assert |Pack(vs[0])| == n;
      MulStep(|vs| - 1, n);
    }
  }

  lemma SliceAfter(head: seq<byte>, rest: seq<byte>, k: nat, m: nat)
    requires k + m <= |rest|
    ensures (head + rest)[|head| + k..|head| + k + m] == rest[k..k + m]
  {
  }

  lemma SliceOfTail(s: seq<byte>, d: nat, i: nat, m: nat)
    requires d + i + m <= |s|
    ensures s[d..][i..i + m] == s[d + i..d + i + m]
  {
  }

  lemma MulStep(a: nat, n: nat)
    ensures (a + 1) * n == a * n + n
  {
  }

  lemma {:induction false} MulMono(a: nat, b: nat, n: nat)
    requires a <= b
    ensures a * n <= b * n
    decreases b - a
  {
    if a < b {
      MulMono(a + 1, b, n);
      MulStep(a, n);
    }
  }

  /** Where group `g` of width `n` starts and ends among `count` groups. */
  lemma GroupOffsets(g: nat, n: nat, count: nat)
    requires g < count
    ensures 0 <= g * n && g * n + n <= count * n
    ensures g > 0 ==> g * n == (g - 1) * n + n && 0 <= (g - 1) * n
  {
    MulStep(g, n);
    MulMono(g + 1, count, n);
    MulMono(0, g, n);
    if g > 0 {
      MulStep(g - 1, n);
      MulMono(0, g - 1, n);
    }
  }

  /** Groups of equal width sit at fixed offsets in the payload. */
  lemma {:induction false} PayloadGroup(vs: seq<seq<word32>>, channels: nat, g: nat)
    requires forall i :: 0 <= i < |vs| ==> |vs[i]| == channels
    requires g < |vs|
    ensures g * GroupSize(channels) + GroupSize(channels) <= |Payload(vs)|
    ensures Payload(vs)[g * GroupSize(channels)..g * GroupSize(channels) + GroupSize(channels)] == Pack(vs[g])
    decreases g
  {
    var n := GroupSize(channels);
    PayloadLength(vs, channels);
    GroupOffsets(g, n, |vs|);
    var head, rest := Pack(vs[0]), Payload(vs[1..]);
    assert Payload(vs) == head + rest;
    assert |head| == n;
    if g > 0 {
      var k := (g - 1) * n;
      assert forall i :: 0 <= i < |vs| - 1 ==> |vs[1..][i]| == channels by {
        forall i | 0 <= i < |vs| - 1 ensures |vs[1..][i]| == channels {
          assert vs[1..][i] == vs[i + 1];
        }
      }
      PayloadGroup(vs[1..], channels, g - 1);
      SliceAfter(head, rest, k, n);
    }
  }

  /** Group `g` of an encoded packet holds the `g`-th value vector. */
  lemma EncodedGroup(recvTime: real, seqNo: byte, vs: seq<seq<word32>>, channels: nat, g: nat)
    requires |vs| == GroupsPerPacket && g < GroupsPerPacket
    requires forall i :: 0 <= i < |vs| ==> |vs[i]| == channels
    ensures |EncodePacket(seqNo, vs)| == PacketSize(channels)
    ensures GroupSample(recvTime, EncodePacket(seqNo, vs), channels, g) == Sample(GroupTimestamp(recvTime, g), vs[g], g)
  {
    var n := GroupSize(channels);
    var packet := EncodePacket(seqNo, vs);
    PayloadLength(vs, channels);
    PayloadGroup(vs, channels, g);
    SliceAfter([Marker, seqNo], Payload(vs), g * n, n);
    assert GroupBytes(packet, channels, g) == Pack(vs[g]);
    UnpackPack(vs[g]);
  }

  /** Decoding a packet the device encoded gives back its five value
      vectors, each stamped with its group's time. */
  lemma DecodeEncodedPacket(recvTime: real, seqNo: byte, vs: seq<seq<word32>>, channels: nat)
    requires |vs| == GroupsPerPacket
    requires forall i :: 0 <= i < |vs| ==> |vs[i]| == channels
    ensures |EncodePacket(seqNo, vs)| == PacketSize(channels)
    ensures DecodePacket(recvTime, EncodePacket(seqNo, vs), channels)
      == Groups(seq(GroupsPerPacket, g requires 0 <= g < GroupsPerPacket => Sample(GroupTimestamp(recvTime, g), vs[g], g)))
  {
    var packet := EncodePacket(seqNo, vs);
    EncodedGroup(recvTime, seqNo, vs, channels, 0);
    var r := DecodePacket(recvTime, packet, channels);
    forall g | 0 <= g < GroupsPerPacket
      ensures r.samples[g] == Sample(GroupTimestamp(recvTime, g), vs[g], g)
    {
      EncodedGroup(recvTime, seqNo, vs, channels, g);
    }
  }

  /** Block `g` of width `n` is the same in `a` and `b`. */
  predicate SameBlock(a: seq<byte>, b: seq<byte>, n: nat, g: nat) {
    0 <= g * n && g * n + n <= |a| && g * n + n <= |b| && a[g * n..g * n + n] == b[g * n..g * n + n]
  }

  /** Two sequences cut into the same `m` blocks of width `n` are equal
      when every block is. */
  lemma {:induction false} BlocksEqual(a: seq<byte>, b: seq<byte>, n: nat, m: nat)
    requires |a| == |b| == m * n
    requires forall g :: 0 <= g < m ==> SameBlock(a, b, n, g)
    ensures a == b
  {
    if m > 0 {
      MulStep(m - 1, n);
      assert SameBlock(a, b, n, 0);
      assert a[..n] == b[..n] by {
        assert 0 * n == 0;
      }
      forall g | 0 <= g < m - 1 ensures SameBlock(a[n..], b[n..], n, g) {
        ShiftBlock(a, b, n, m, g);
      }
      BlocksEqual(a[n..], b[n..], n, m - 1);
      assert a == a[..n] + a[n..] && b == b[..n] + b[n..];
    }
  }

  /** Block `g + 1` of `a` and `b` is block `g` of what follows their
      first block. */
  lemma ShiftBlock(a: seq<byte>, b: seq<byte>, n: nat, m: nat, g: nat)
    requires |a| == |b| == m * n && g + 1 < m && SameBlock(a, b, n, g + 1)
    ensures SameBlock(a[n..], b[n..], n, g)
  {
    GroupOffsets(g + 1, n, m);
    GroupOffsets(g, n, m);
    MulStep(g, n);
    var lo := (g + 1) * n;
    assert a[n..][g * n..g * n + n] == a[lo..lo + n];
    assert b[n..][g * n..g * n + n] == b[lo..lo + n];
  }

  /** The five value vectors of a packet of the right length. */
  function GroupValues(packet: seq<byte>, channels: nat): (vs: seq<seq<word32>>)
    requires |packet| == PacketSize(channels)
    ensures |vs| == GroupsPerPacket
    ensures forall g :: 0 <= g < GroupsPerPacket ==> |vs[g]| == channels
  {
    seq(GroupsPerPacket, g requires 0 <= g < GroupsPerPacket => Unpack(GroupBytes(packet, channels, g)))
  }

  /** Group `g` is the `g`-th block of the payload. */
  lemma GroupBytesAt(packet: seq<byte>, channels: nat, g: nat)
    requires |packet| == PacketSize(channels) && g < GroupsPerPacket
    ensures var n := GroupSize(channels);
      0 <= g * n && g * n + n <= |packet| - 2 && GroupBytes(packet, channels, g) == packet[2..][g * n..g * n + n]
  {
    var n := GroupSize(channels);
    GroupOffsets(g, n, GroupsPerPacket);
    SliceOfTail(packet, 2, g * n, n);
  }

  /** Group `g` of the payload re-encodes to the bytes it was read from. */
  lemma ReencodedGroup(packet: seq<byte>, channels: nat, g: nat)
    requires |packet| == PacketSize(channels) && g < GroupsPerPacket
    ensures SameBlock(Payload(GroupValues(packet, channels)), packet[2..], GroupSize(channels), g)
  {
    var n, vs := GroupSize(channels), GroupValues(packet, channels);
    var bytes := GroupBytes(packet, channels, g);
    GroupOffsets(g, n, GroupsPerPacket);
    PayloadLength(vs, channels);
    var block := Payload(vs)[g * n..g * n + n];
    assert block == Pack(vs[g]) by { PayloadGroup(vs, channels, g); }
    assert Pack(vs[g]) == bytes by { GroupSizeAligned(channels); PackUnpack(bytes); }
    assert bytes == packet[2..][g * n..g * n + n] by { GroupBytesAt(packet, channels, g); }
  }

  /** Conversely, a packet of the right length is exactly the encoding of
      its decoded groups: nothing in the payload is skipped or read twice. */
  lemma DecodedPacketReencodes(recvTime: real, packet: seq<byte>, channels: nat)
    requires |packet| == PacketSize(channels) && packet[0] == Marker
    ensures var r := DecodePacket(recvTime, packet, channels);
      forall g :: 0 <= g < GroupsPerPacket ==> r.samples[g].values == GroupValues(packet, channels)[g]
    ensures EncodePacket(packet[1], GroupValues(packet, channels)) == packet
  {
    var vs := GroupValues(packet, channels);
    var n := GroupSize(channels);
    PayloadLength(vs, channels);
    var p, q := Payload(vs), packet[2..];
    forall g | 0 <= g < GroupsPerPacket ensures SameBlock(p, q, n, g) {
      ReencodedGroup(packet, channels, g);
    }
    BlocksEqual(p, q, n, GroupsPerPacket);
    assert packet == [packet[0], packet[1]] + q;
  }
}
