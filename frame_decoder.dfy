/** The framing loop of `NetworkDebugger.receive_data`
    (Professional/caiji.py:664-693): received bytes are appended to an
    accumulator, which is then cut into fixed-size packets, resynchronising
    on the marker byte whenever the head of the accumulator is not one. */
module FrameDecoder {
  import opened Common
  import opened Wire

  /** `bytes.find` for one byte: the index of its first occurrence, or -1. */
  function FindByte(s: seq<byte>, b: byte): (r: int)
    ensures -1 <= r < |s|
    ensures r == -1 <==> b !in s
    ensures r >= 0 ==> s[r] == b && b !in s[..r]
  {
    if s == [] then -1
    else if s[0] == b then 0
    else
      var k := FindByte(s[1..], b);
      if k == -1 then -1
      else
        assert s[..k + 1] == [s[0]] + s[1..][..k];
        k + 1
  }

  /** The resynchronisation at the head of the accumulator: kept as is
      when it starts with the marker, otherwise cut to start at the first
      marker, or emptied when there is none. */
  function Resync(buf: seq<byte>): (r: seq<byte>)
  {
    if |buf| > 0 && buf[0] == Marker then buf
    else
      var i := FindByte(buf, Marker);
      if i == -1 then [] else buf[i..]
  }

  /** `t` is a tail of `s`. */
  predicate IsSuffix(t: seq<byte>, s: seq<byte>) {
    |t| <= |s| && t == s[|s| - |t|..]
  }

  /** A tail of a tail is a tail. */
  lemma SuffixOfSuffix(u: seq<byte>, t: seq<byte>, s: seq<byte>)
    requires IsSuffix(u, t) && IsSuffix(t, s)
    ensures IsSuffix(u, s)
  {
    assert s[|s| - |t|..][|t| - |u|..] == s[|s| - |u|..];
  }

  /** Resynchronisation keeps a tail of the accumulator that is empty or
      led by the marker, and drops only bytes that are not the marker. */
  lemma ResyncIsSuffix(buf: seq<byte>)
    ensures var r := Resync(buf);
      && IsSuffix(r, buf)
      && (r == [] || r[0] == Marker)
      && Marker !in buf[..|buf| - |r|]
  {
  }

  /** Everything resynchronisation drops is marker-free garbage, so an
      accumulator made of garbage followed by a marker resumes at that
      marker, and a marker-free accumulator is emptied. */
  lemma ResyncSkipsGarbage(garbage: seq<byte>, rest: seq<byte>)
    requires Marker !in garbage
    ensures rest != [] && rest[0] == Marker ==> Resync(garbage + rest) == rest
    ensures Marker !in rest ==> Resync(garbage + rest) == []
  {
    var buf := garbage + rest;
    if rest != [] && rest[0] == Marker {
      assert buf[|garbage|] == Marker;
    }
  }

  /** What the framing loop does to an accumulator: the packets it cuts,
      in order, and the bytes left over for the next chunk. */
  function Cut(buf: seq<byte>, size: nat): (seq<seq<byte>>, seq<byte>)
    requires size > 0
    decreases |buf|
  {
    if |buf| < size then ([], buf)
    else
      var a := Resync(buf);
      if |a| < size then ([], a)
      else
        var r := Cut(a[size..], size);
        ([a[..size]] + r.0, r.1)
  }

  /** A well-formed packet: the right size and led by the marker. */
  ghost predicate IsPacket(p: seq<byte>, size: nat) {
    |p| == size && |p| > 0 && p[0] == Marker
  }

  /** Every packet the loop cuts has the packet size and starts with the
      marker. */
  lemma {:induction false} CutPackets(buf: seq<byte>, size: nat)
    requires size > 0
    ensures forall p <- Cut(buf, size).0 :: IsPacket(p, size)
    decreases |buf|
  {
    if |buf| >= size {
      var a := Resync(buf);
      if |a| >= size {
        var r := Cut(a[size..], size);
        CutPackets(a[size..], size);
        assert Cut(buf, size).0 == [a[..size]] + r.0;
        assert IsPacket(a[..size], size);
      }
    }
  }

  /** When the loop exits, fewer than `size` bytes are left, and they are
      the tail of the accumulator. */
  lemma {:induction false} CutRest(buf: seq<byte>, size: nat)
    requires size > 0
    ensures |Cut(buf, size).1| < size
    ensures IsSuffix(Cut(buf, size).1, buf)
    decreases |buf|
  {
    if |buf| >= size {
      var a := Resync(buf);
      ResyncIsSuffix(buf);
      CutUnfold(buf, size);
      if |a| >= size {
        var t := a[size..];
        CutRest(t, size);
        assert IsSuffix(t, a);
        SuffixOfSuffix(t, a, buf);
        SuffixOfSuffix(Cut(t, size).1, t, buf);
      }
    }
  }

  /** One pass of the receive loop over a freshly received chunk:
      `data_buffer += chunk`, then the inner `while` that cuts packets. */
  method DecodeChunk(acc: seq<byte>, chunk: seq<byte>, size: nat)
    returns (acc': seq<byte>, packets: seq<seq<byte>>)
    requires size > 0
    ensures (packets, acc') == Cut(acc + chunk, size)
    ensures forall p <- packets :: IsPacket(p, size)
    ensures |acc'| < size
  {
    ghost var total := Cut(acc + chunk, size);
    var buf := acc + chunk;
    packets := [];
    while |buf| >= size
      invariant packets + Cut(buf, size).0 == total.0
      invariant Cut(buf, size).1 == total.1
      decreases |buf|
    {
      ghost var before := buf;
      if buf[0] != Marker {
        var idx := FindByte(buf, Marker);
        if idx == -1 {
          buf := [];
          CutStops(before, buf, packets, total, size);
          break;
        }
        buf := buf[idx..];
        if |buf| < size {
          CutStops(before, buf, packets, total, size);
          break;
        }
      }
      var packet := buf[..size];
      CutTurn(before, buf, packets, total, size);
      buf := buf[size..];
      packets := packets + [packet];
    }
    assert packets == total.0 && buf == total.1 by {
      if |buf| < size {
        assert Cut(buf, size) == ([], buf);
      }
    }
    acc' := buf;
    CutPackets(acc + chunk, size);
    CutRest(acc + chunk, size);
  }

  /** A turn of the loop that cuts a packet keeps the loop invariant of
      `DecodeChunk`. */
  lemma CutTurn(before: seq<byte>, a: seq<byte>, packets: seq<seq<byte>>,
                total: (seq<seq<byte>>, seq<byte>), size: nat)
    requires 0 < size <= |before| && a == Resync(before) && size <= |a|
    requires packets + Cut(before, size).0 == total.0 && Cut(before, size).1 == total.1
    ensures (packets + [a[..size]]) + Cut(a[size..], size).0 == total.0
    ensures Cut(a[size..], size).1 == total.1
  {
    CutUnfold(before, size);
    AppendAssoc(packets, [a[..size]], Cut(a[size..], size).0);
  }

  /** A turn of the loop that leaves fewer than `size` bytes ends it with
      everything cut. */
  lemma CutStops(before: seq<byte>, a: seq<byte>, packets: seq<seq<byte>>,
                 total: (seq<seq<byte>>, seq<byte>), size: nat)
    requires 0 < size <= |before| && a == Resync(before) && |a| < size
    requires packets + Cut(before, size).0 == total.0 && Cut(before, size).1 == total.1
    ensures packets == total.0 && a == total.1
  {
    CutUnfold(before, size);
    assert packets + [] == packets;
  }

  /** One turn of the framing loop, as `Cut` sees it. */
  lemma CutUnfold(buf: seq<byte>, size: nat)
    requires 0 < size <= |buf|
    ensures var a := Resync(buf);
      && (|a| < size ==> Cut(buf, size) == ([], a))
      && (|a| >= size ==> Cut(buf, size) == ([a[..size]] + Cut(a[size..], size).0, Cut(a[size..], size).1))
  {
  }

  /** The byte stream `gs[0] + ps[0] + gs[1] + ps[1] + ...`: packets, each
      preceded by a run of garbage. */
  function Stream(gs: seq<seq<byte>>, ps: seq<seq<byte>>): seq<byte>
    requires |gs| == |ps|
    decreases |ps|
  {
    if ps == [] then [] else gs[0] + ps[0] + Stream(gs[1..], ps[1..])
  }

  /** The precondition of the recovery theorems: marker-free garbage and
      well-formed packets. */
  ghost predicate GoodStream(gs: seq<seq<byte>>, ps: seq<seq<byte>>, size: nat) {
    && |gs| == |ps|
    && (forall i :: 0 <= i < |gs| ==> Marker !in gs[i])
    && (forall i :: 0 <= i < |ps| ==> IsPacket(ps[i], size))
  }

  /** A prefix that ends inside a run of garbage is discarded whole. */
  lemma CutInGarbage(g: seq<byte>, rest: seq<byte>, w: seq<byte>, z: seq<byte>, size: nat)
    requires 0 < size <= |w| <= |g| && Marker !in g
    requires w + z == g + rest
    ensures Cut(w, size) == ([], [])
    ensures z == g[|w|..] + rest && Marker !in g[|w|..]
  {
    assert w == g[..|w|] by { assert (w + z)[..|w|] == w; }
    assert Marker !in w by {
      forall i | 0 <= i < |w| ensures w[i] != Marker { assert w[i] == g[i]; }
    }
    assert Resync(w) == [] by { ResyncSkipsGarbage(w, []); assert w + [] == w; }
    CutUnfold(w, size);
    assert z == (w + z)[|w|..];
    assert Marker !in g[|w|..] by {
      forall i | 0 <= i < |g| - |w| ensures g[|w|..][i] != Marker { assert g[|w|..][i] == g[|w| + i]; }
    }
  }

  /** A prefix that reaches past a run of garbage resumes at the packet
      after it; when the whole packet is there, it is cut. */
  lemma CutAtPacket(g: seq<byte>, p: seq<byte>, y: seq<byte>, w: seq<byte>, z: seq<byte>, size: nat)
    requires 0 < size <= |w| && |g| < |w| && Marker !in g && IsPacket(p, size)
    requires w + z == g + (p + y)
    ensures var a := w[|g|..];
      && a + z == p + y
      && (|a| < size ==> Cut(w, size) == ([], a))
      && (|a| >= size ==>
            (a[..size] == p && a[size..] + z == y
             && Cut(w, size) == ([p] + Cut(a[size..], size).0, Cut(a[size..], size).1)))
  {
    var a := w[|g|..];
    assert w == g + a by { assert w[..|g|] == (w + z)[..|g|] == g; }
    assert a + z == p + y by {
      assert (g + a) + z == g + (a + z);
      assert (g + (a + z))[|g|..] == a + z;
      assert (g + (p + y))[|g|..] == p + y;
    }
    assert a[0] == Marker by { assert a[0] == (a + z)[0] == p[0]; }
    assert Resync(w) == a by { ResyncSkipsGarbage(g, a); }
    CutUnfold(w, size);
    if |a| >= size {
      assert a[..size] == p by {
        assert (a + z)[..size] == a[..size];
        assert (p + y)[..size] == p;
      }
      assert a[size..] + z == y by {
        assert (a + z)[size..] == a[size..] + z;
        assert (p + y)[size..] == y;
      }
    }
  }

  /** The first garbage run and packet of a non-empty good stream, and the
      good stream after them. */
  lemma StreamHead(gs: seq<seq<byte>>, ps: seq<seq<byte>>, size: nat)
    requires GoodStream(gs, ps, size) && ps != []
    ensures Marker !in gs[0] && IsPacket(ps[0], size)
    ensures GoodStream(gs[1..], ps[1..], size)
    ensures Stream(gs, ps) == gs[0] + (ps[0] + Stream(gs[1..], ps[1..]))
  {
    forall i | 0 <= i < |gs| - 1 ensures Marker !in gs[1..][i] {
      assert gs[1..][i] == gs[i + 1];
    }
    forall i | 0 <= i < |ps| - 1 ensures IsPacket(ps[1..][i], size) {
      assert ps[1..][i] == ps[i + 1];
    }
    assert gs[0] + ps[0] + Stream(gs[1..], ps[1..]) == gs[0] + (ps[0] + Stream(gs[1..], ps[1..]));
  }

  /** Replacing the first garbage run by other garbage keeps a good stream. */
  lemma ReplaceHead(gs: seq<seq<byte>>, ps: seq<seq<byte>>, h: seq<byte>, size: nat)
    requires GoodStream(gs, ps, size) && ps != [] && Marker !in h
    ensures GoodStream([h] + gs[1..], ps, size)
    ensures Stream([h] + gs[1..], ps) == h + ps[0] + Stream(gs[1..], ps[1..])
  {
    assert forall i :: 1 <= i < |gs| ==> ([h] + gs[1..])[i] == gs[i];
  }

  /** A prefix of a good stream that ends inside its first garbage run
      cuts nothing and keeps nothing; the rest of that run leads what is
      still to come. */
  lemma PrefixInGarbage(gs: seq<seq<byte>>, ps: seq<seq<byte>>, w: seq<byte>, z: seq<byte>, size: nat)
    returns (gs': seq<seq<byte>>)
    requires size > 0 && GoodStream(gs, ps, size) && ps != []
    requires w + z == Stream(gs, ps) && size <= |w| <= |gs[0]|
    ensures Cut(w, size) == ([], [])
    ensures GoodStream(gs', ps, size) && z == Stream(gs', ps)
  {
    StreamHead(gs, ps, size);
    var g := gs[0];
    CutInGarbage(g, ps[0] + Stream(gs[1..], ps[1..]), w, z, size);
    gs' := [g[|w|..]] + gs[1..];
    ReplaceHead(gs, ps, g[|w|..], size);
  }

  /** A prefix of a good stream that ends inside its first packet keeps
      that packet's beginning. */
  lemma PrefixInPacket(gs: seq<seq<byte>>, ps: seq<seq<byte>>, w: seq<byte>, z: seq<byte>, size: nat)
    returns (gs': seq<seq<byte>>)
    requires size > 0 && GoodStream(gs, ps, size) && ps != []
    requires w + z == Stream(gs, ps) && size <= |w| && |gs[0]| < |w| < |gs[0]| + size
    ensures Cut(w, size).0 == []
    ensures GoodStream(gs', ps, size) && Cut(w, size).1 + z == Stream(gs', ps)
  {
    StreamHead(gs, ps, size);
    var g, p, y := gs[0], ps[0], Stream(gs[1..], ps[1..]);
    CutAtPacket(g, p, y, w, z, size);
    gs' := [[]] + gs[1..];
    ReplaceHead(gs, ps, [], size);
    assert [] + p + y == p + y;
  }

  /** A prefix of a good stream that holds its first packet whole cuts it,
      and goes on from the bytes after it. */
  lemma PrefixPastPacket(gs: seq<seq<byte>>, ps: seq<seq<byte>>, w: seq<byte>, z: seq<byte>, size: nat)
    requires size > 0 && GoodStream(gs, ps, size) && ps != []
    requires w + z == Stream(gs, ps) && |gs[0]| + size <= |w|
    ensures GoodStream(gs[1..], ps[1..], size)
    ensures w[|gs[0]| + size..] + z == Stream(gs[1..], ps[1..])
    ensures Cut(w, size) == ([ps[0]] + Cut(w[|gs[0]| + size..], size).0, Cut(w[|gs[0]| + size..], size).1)
  {
    StreamHead(gs, ps, size);
    var g, p, y := gs[0], ps[0], Stream(gs[1..], ps[1..]);
    CutAtPacket(g, p, y, w, z, size);
    DropDrop(w, |g|, size);
  }

  /** Cutting any prefix `w` of a good stream yields the first `k` packets,
      and what is left over followed by the rest of the stream is again a
      good stream of the remaining packets. */
  lemma {:induction false} CutStreamPrefix(gs: seq<seq<byte>>, ps: seq<seq<byte>>, w: seq<byte>, z: seq<byte>, size: nat)
    returns (k: nat, gs': seq<seq<byte>>)
    requires size > 0 && GoodStream(gs, ps, size)
    requires w + z == Stream(gs, ps)
    ensures k <= |ps| && Cut(w, size).0 == ps[..k]
    ensures GoodStream(gs', ps[k..], size)
    ensures Cut(w, size).1 + z == Stream(gs', ps[k..])
    decreases |w|
  {
    if |w| < size {
      return 0, gs;
    }
    if |w| <= |gs[0]| {
      gs' := PrefixInGarbage(gs, ps, w, z, size);
      return 0, gs';
    }
    if |w| < |gs[0]| + size {
      gs' := PrefixInPacket(gs, ps, w, z, size);
      return 0, gs';
    }
    PrefixPastPacket(gs, ps, w, z, size);
    var k', gs'' := CutStreamPrefix(gs[1..], ps[1..], w[|gs[0]| + size..], z, size);
    HeadSlices(ps, k');
    return k' + 1, gs'';
  }

  /** The framing loop run over a sequence of received chunks, starting
      from accumulator `acc`: all packets cut, and the final accumulator. */
  function Feed(acc: seq<byte>, chunks: seq<seq<byte>>, size: nat): seq<seq<byte>>
    requires size > 0
    decreases |chunks|
  {
    if chunks == [] then []
    else
      var (ps, rest) := Cut(acc + chunks[0], size);
      ps + Feed(rest, chunks[1..], size)
  }

  function Flatten(chunks: seq<seq<byte>>): seq<byte>
    decreases |chunks|
  {
    if chunks == [] then [] else chunks[0] + Flatten(chunks[1..])
  }

  lemma StreamLength(gs: seq<seq<byte>>, ps: seq<seq<byte>>, size: nat)
    requires GoodStream(gs, ps, size) && ps != []
    ensures |Stream(gs, ps)| >= size
  {
  }

  /** Resynchronisation recovers every packet: a stream of N well-formed
      packets, each preceded by marker-free garbage, yields exactly those N
      packets in order, however the stream is split into chunks. */
  lemma {:induction false} FeedRecoversPackets(acc: seq<byte>, chunks: seq<seq<byte>>, gs: seq<seq<byte>>, ps: seq<seq<byte>>, size: nat)
    requires size > 0 && GoodStream(gs, ps, size)
    requires |acc| < size
    requires acc + Flatten(chunks) == Stream(gs, ps)
    ensures Feed(acc, chunks, size) == ps
    decreases |chunks|
  {
    if chunks == [] {
      assert acc == Stream(gs, ps);
      if ps != [] { StreamLength(gs, ps, size); }
    } else {
      var w := acc + chunks[0];
      assert w + Flatten(chunks[1..]) == acc + Flatten(chunks);
      var k, gs' := CutStreamPrefix(gs, ps, w, Flatten(chunks[1..]), size);
      var rest := Cut(w, size).1;
      CutRest(w, size);
      FeedRecoversPackets(rest, chunks[1..], gs', ps[k..], size);
      assert ps == ps[..k] + ps[k..];
    }
  }

  /** The same from a freshly started receive loop (`data_buffer = b''`). */
  lemma ChunkingDoesNotMatter(chunks: seq<seq<byte>>, gs: seq<seq<byte>>, ps: seq<seq<byte>>, size: nat)
    requires size > 0 && GoodStream(gs, ps, size)
    requires Flatten(chunks) == Stream(gs, ps)
    ensures Feed([], chunks, size) == ps
  {
    assert [] + Flatten(chunks) == Flatten(chunks);
    FeedRecoversPackets([], chunks, gs, ps, size);
  }
}
