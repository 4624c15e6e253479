/** Vocabulary shared by both programs: bytes, options, and the
    keep-the-latest window that the packet queue, the live waveform buffer
    and the EMG history all implement. */
module Common {

  /** One octet of a TCP stream. */
  newtype byte = x: int | 0 <= x < 256

  datatype Option<T> = None | Some(value: T)

  /** The last `n` elements of `s` (all of `s` when it is shorter): what a
      drop-oldest buffer of capacity `n` holds after `s` was fed to it. */
  function Latest<T>(s: seq<T>, n: nat): (r: seq<T>)
    ensures |r| == if |s| <= n then |s| else n
    ensures r == s[|s| - |r|..]
  {
    if |s| <= n then s else s[|s| - n..]
  }

  /** Feeding the elements of `xs` one at a time into a window of
      capacity `n`, each step keeping only the latest `n`. */
  function SlideAll<T>(w: seq<T>, xs: seq<T>, n: nat): seq<T>
    decreases |xs|
  {
    if xs == [] then w else SlideAll(Latest(w + [xs[0]], n), xs[1..], n)
  }

  /** Trimming before appending loses nothing: the window of the window
      plus `x` is the window of the whole history plus `x`. */
  lemma LatestOfLatest<T>(s: seq<T>, x: T, n: nat)
    ensures Latest(Latest(s, n) + [x], n) == Latest(s + [x], n)
  {
    var l := Latest(s, n);
    var a, b := Latest(l + [x], n), Latest(s + [x], n);
    assert |a| == |b|;
    forall i | 0 <= i < |a| ensures a[i] == b[i] {
      if i == |a| - 1 {
      } else {
        assert a[i] == (l + [x])[|l| + 1 - |a| + i];
        assert b[i] == (s + [x])[|s| + 1 - |b| + i];
      }
    }
  }

  /** A window fed one element at a time holds exactly the latest `n`
      elements of everything it was ever fed, in their original order. */
  lemma {:induction false} SlideAllIsLatest<T>(s: seq<T>, xs: seq<T>, n: nat)
    ensures SlideAll(Latest(s, n), xs, n) == Latest(s + xs, n)
    decreases |xs|
  {
    if xs != [] {
      var s' := s + [xs[0]];
      calc {
        SlideAll(Latest(s, n), xs, n);
        SlideAll(Latest(Latest(s, n) + [xs[0]], n), xs[1..], n);
        { LatestOfLatest(s, xs[0], n); }
        SlideAll(Latest(s', n), xs[1..], n);
        { SlideAllIsLatest(s', xs[1..], n); }
        Latest(s' + xs[1..], n);
        { assert s' + xs[1..] == s + xs; }
        Latest(s + xs, n);
      }
    }
  }

  /** Starting from an empty window: after any number of appends the
      window is the latest `n` elements fed. */
  lemma SlideAllFromEmpty<T>(xs: seq<T>, n: nat)
    ensures SlideAll([], xs, n) == Latest(xs, n)
  {
    var e: seq<T> := [];
    assert Latest(e, n) == e;
    SlideAllIsLatest(e, xs, n);
    assert e + xs == xs;
  }

  /** Appending one more element to a window fed `xs` is the window fed
      `xs` and that element. */
  lemma LatestStep<T>(w: seq<T>, xs: seq<T>, x: T, n: nat)
    ensures Latest(Latest(w + xs, n) + [x], n) == Latest(w + (xs + [x]), n)
  {
    LatestOfLatest(w + xs, x, n);
    assert w + xs + [x] == w + (xs + [x]);
  }

  /** Cutting `a + b` inside `a`. */
  lemma AppendSlices<T>(a: seq<T>, b: seq<T>, n: nat)
    requires n <= |a|
    ensures (a + b)[..n] == a[..n] && (a + b)[n..] == a[n..] + b
  {
  }

  /** The first `k + 1` elements of `s` and what follows them, seen from
      `s[1..]`. */
  lemma HeadSlices<T>(s: seq<T>, k: nat)
    requires k < |s|
    ensures s[..k + 1] == [s[0]] + s[1..][..k] && s[k + 1..] == s[1..][k..]
  {
  }

  lemma DropDrop<T>(s: seq<T>, i: nat, j: nat)
    requires i + j <= |s|
    ensures s[i..][j..] == s[i + j..]
  {
  }

  lemma AppendAssoc<T>(a: seq<T>, b: seq<T>, c: seq<T>)
    ensures a + (b + c) == (a + b) + c
  {
  }
}
