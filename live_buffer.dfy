/** The live waveform buffer of `NetworkDebugger`: `plot_data`, a
    channels x 10000 matrix, `time_data`, 10000 timestamps, and
    `data_index`, the number of filled columns (Professional/caiji.py:88-92,
    723-734). It fills left to right, then slides: every row is rolled one
    place to the left and the newest sample overwrites the last column. */
module LiveBuffer {
  import opened Common
  import opened Wire

  /** `max_data_points`. */
  const MaxPoints: nat := 10000

  /** One column of the buffer: a value per channel and its timestamp. */
  datatype Point = Point(values: seq<word32>, time: real)

  /** `paused_plot_data`, `paused_time_data`, `paused_data_index`: a copy
      of the whole buffer, rows of `plot_data` first. */
  datatype Snapshot = Snapshot(plot: seq<seq<word32>>, times: seq<real>, index: nat)

  /** `n` zero values, the column `np.zeros` starts every point with. */
  function Zeros(n: nat): (z: seq<word32>)
    ensures |z| == n && forall i :: 0 <= i < n ==> z[i] == 0
  {
    seq(n, i => 0)
  }

  /** `np.roll(times, -1)` in place: every element moves one place to the
      left and the first one goes to the end. */
  method RollLeft(a: array<real>)
    requires a.Length > 0
    modifies a
    ensures a[..] == old(a[1..]) + [old(a[0])]
  {
    var first := a[0];
    var k := 0;
    while k < a.Length - 1
      invariant 0 <= k <= a.Length - 1
      invariant forall c :: 0 <= c < k ==> a[c] == old(a[c + 1])
      invariant forall c :: k <= c < a.Length ==> a[c] == old(a[c])
    {
      a[k] := a[k + 1];
      k := k + 1;
    }
    a[a.Length - 1] := first;
  }

  class Waveform {
    /** `plot_data[channel, point]`. */
    var plot: array2<word32>
    /** `time_data[point]`. */
    var times: array<real>
    /** `data_index`. */
    var index: nat

    ghost predicate Valid()
      reads this
    {
      && plot.Length1 == MaxPoints
      && times.Length == MaxPoints
      && index <= MaxPoints
    }

    /** Number of channels (rows). */
    function Channels(): nat
      reads this
    {
      plot.Length0
    }

    /** Column `j` of `plot_data`. */
    ghost function Column(j: nat): (col: seq<word32>)
      reads this, plot
      requires j < plot.Length1
      ensures |col| == plot.Length0
      ensures forall i :: 0 <= i < |col| ==> col[i] == plot[i, j]
    {
      var p := plot;
      seq(p.Length0, i requires 0 <= i < p.Length0 reads p => p[i, j])
    }

    /** The filled part of the buffer, oldest column first: what the live
        view draws. */
    ghost function Window(): (w: seq<Point>)
      reads this, plot, times
      requires Valid()
      ensures |w| == index
    {
      var n := index;
      seq(n, j requires 0 <= j < n && n <= MaxPoints && Valid() reads this, plot, times => Point(Column(j), times[j]))
    }

    /** The buffer `__init__` allocates, all zeros and empty. */
    constructor (channels: nat)
      ensures Valid() && Channels() == channels && index == 0
      ensures Window() == []
      ensures forall i, j :: 0 <= i < channels && 0 <= j < MaxPoints ==> plot[i, j] == 0
      ensures forall j :: 0 <= j < MaxPoints ==> times[j] == 0.0
      ensures fresh(plot) && fresh(times)
    {
      plot := new word32[channels, MaxPoints]((i, j) => 0);
      times := new real[MaxPoints](j => 0.0);
      index := 0;
    }

    /** The session-start reset (Professional/caiji.py:807-811): fresh
        zero matrices for the current channel count and `data_index = 0`. */
    method Reset()
      requires Valid()
      modifies this
      ensures Valid() && Channels() == old(Channels()) && index == 0
      ensures Window() == []
      ensures forall i, j :: 0 <= i < Channels() && 0 <= j < MaxPoints ==> plot[i, j] == 0
      ensures forall j :: 0 <= j < MaxPoints ==> times[j] == 0.0
      ensures fresh(plot) && fresh(times)
    {
      plot := new word32[plot.Length0, MaxPoints]((i, j) => 0);
      times := new real[MaxPoints](j => 0.0);
      index := 0;
    }

    /** `change_channel_count` (Professional/caiji.py:562): a fresh zero
        matrix with the new number of rows; `time_data` and `data_index`
        are kept, so the window keeps its timestamps with zero values. */
    method Resize(channels: nat)
      requires Valid()
      modifies this
      ensures Valid() && Channels() == channels
      ensures times == old(times) && index == old(index) && fresh(plot)
      ensures Window() == Blanked(old(Window()), channels)
    {
      plot := new word32[channels, MaxPoints]((i, j) => 0);
      forall j | 0 <= j < index
        ensures Window()[j] == Blanked(old(Window()), channels)[j]
      {
        assert Column(j) == Zeros(channels);
      }
    }

    /** Writes one sample into column `j` (the `enumerate(values)` loop and
        the `time_data` write). */
    method WriteColumn(j: nat, values: seq<word32>, t: real)
      requires Valid() && j < MaxPoints && |values| == Channels()
      modifies plot, times
      ensures forall i, c :: 0 <= i < Channels() && 0 <= c < MaxPoints ==>
        plot[i, c] == if c == j then values[i] else old(plot[i, c])
      ensures times[..] == old(times[..])[j := t]
    {
      var i := 0;
      while i < |values|
        invariant 0 <= i <= |values|
        invariant forall r, c :: 0 <= r < Channels() && 0 <= c < MaxPoints ==>
          plot[r, c] == if c == j && r < i then values[r] else old(plot[r, c])
        invariant times[..] == old(times[..])
      {
        plot[i, j] := values[i];
        i := i + 1;
      }
      times[j] := t;
    }

    /** Rolls row `r` of `plot_data` one place to the left. */
    method RollRow(r: nat)
      requires Valid() && r < Channels()
      modifies plot
      ensures forall c :: 0 <= c < MaxPoints - 1 ==> plot[r, c] == old(plot[r, c + 1])
      ensures plot[r, MaxPoints - 1] == old(plot[r, 0])
      ensures forall i, c :: 0 <= i < Channels() && i != r && 0 <= c < MaxPoints ==> plot[i, c] == old(plot[i, c])
    {
      var first := plot[r, 0];
      var c := 0;
      while c < MaxPoints - 1
        invariant 0 <= c <= MaxPoints - 1
        invariant forall k :: 0 <= k < c ==> plot[r, k] == old(plot[r, k + 1])
        invariant forall k :: c <= k < MaxPoints ==> plot[r, k] == old(plot[r, k])
        invariant forall i, k :: 0 <= i < Channels() && i != r && 0 <= k < MaxPoints ==> plot[i, k] == old(plot[i, k])
      {
        plot[r, c] := plot[r, c + 1];
        c := c + 1;
      }
      plot[r, MaxPoints - 1] := first;
    }

    /** `np.roll(self.plot_data, -1, axis=1)`: every row rolled left. */
    method RollColumns()
      requires Valid()
      modifies plot
      ensures forall i, c :: 0 <= i < Channels() && 0 <= c < MaxPoints - 1 ==> plot[i, c] == old(plot[i, c + 1])
      ensures forall i :: 0 <= i < Channels() ==> plot[i, MaxPoints - 1] == old(plot[i, 0])
    {
      var r := 0;
      while r < Channels()
        invariant 0 <= r <= Channels()
        invariant forall i, c :: 0 <= i < r && 0 <= c < MaxPoints - 1 ==> plot[i, c] == old(plot[i, c + 1])
        invariant forall i :: 0 <= i < r ==> plot[i, MaxPoints - 1] == old(plot[i, 0])
        invariant forall i, c :: r <= i < Channels() && 0 <= c < MaxPoints ==> plot[i, c] == old(plot[i, c])
      {
        RollRow(r);
        r := r + 1;
      }
    }

    /** One group appended under `plot_lock` (Professional/caiji.py:723-734):
        while the buffer is filling the sample goes into column `data_index`,
        which then advances; once full, the matrix and the timestamps are
        rolled left and the sample overwrites the last column. Either way
        the buffer holds the latest `MaxPoints` samples, in arrival order. */
    method Append(values: seq<word32>, t: real)
      requires Valid() && |values| == Channels()
      modifies this, plot, times
      ensures Valid() && plot == old(plot) && times == old(times)
      ensures Window() == Latest(old(Window()) + [Point(values, t)], MaxPoints)
    {
      ghost var before := Window();
      ghost var p := Point(values, t);
      if index < MaxPoints {
        WriteColumn(index, values, t);
        index := index + 1;
        forall j | 0 <= j < index ensures Window()[j] == (before + [p])[j] {
          if j < index - 1 {
            assert Column(j) == before[j].values;
          } else {
            assert Column(j) == values;
          }
        }
      } else {
        RollColumns();
        RollLeft(times);
        WriteColumn(MaxPoints - 1, values, t);
        forall j | 0 <= j < MaxPoints ensures Window()[j] == (before[1..] + [p])[j] {
          if j < MaxPoints - 1 {
            assert Column(j) == before[j + 1].values;
          } else {
            assert Column(j) == values;
          }
        }
      }
    }

    /** The copy taken on pause (Professional/caiji.py:575-578, 849-852). */
    method Snap() returns (s: Snapshot)
      requires Valid()
      ensures s.index == index && s.times == times[..]
      ensures |s.plot| == Channels()
      ensures forall i :: 0 <= i < |s.plot| ==> |s.plot[i]| == MaxPoints
      ensures forall i, j :: 0 <= i < |s.plot| && 0 <= j < MaxPoints ==> s.plot[i][j] == plot[i, j]
      ensures Shaped(s) && SnapshotWindow(s) == Window()
    {
      var p := plot;
      var rows := seq(p.Length0, i requires 0 <= i < p.Length0 reads p =>
        seq(MaxPoints, j requires 0 <= j < MaxPoints && MaxPoints == p.Length1 reads p => p[i, j]));
      s := Snapshot(rows, times[..], index);
      forall j | 0 <= j < index ensures SnapshotWindow(s)[j] == Window()[j] {
        assert SnapshotWindow(s)[j].values == Column(j);
      }
    }
  }

  /** The window with every point's values replaced by `channels` zeros
      and its timestamp kept. */
  function Blanked(w: seq<Point>, channels: nat): (b: seq<Point>)
    ensures |b| == |w| && forall j :: 0 <= j < |w| ==> b[j] == Point(Zeros(channels), w[j].time)
  {
    seq(|w|, j requires 0 <= j < |w| => Point(Zeros(channels), w[j].time))
  }

  /** Every copied row as long as the timestamps, and the index within. */
  predicate Shaped(s: Snapshot) {
    s.index <= |s.times| && forall i :: 0 <= i < |s.plot| ==> |s.plot[i]| == |s.times|
  }

  /** A snapshot shows exactly the window that was live when it was taken:
      column `j` of the copied rows, with its time, is point `j`. */
  function SnapshotWindow(s: Snapshot): (w: seq<Point>)
    requires Shaped(s)
    ensures |w| == s.index
  {
    seq(s.index, j requires 0 <= j < s.index => Point(seq(|s.plot|, i requires 0 <= i < |s.plot| => s.plot[i][j]), s.times[j]))
  }
}
