/** Batched persistence of samples (Professional/caiji.py:718-721, 743-759,
    783-795, 842-878): samples collect in `data_batch`; ten of them trigger
    a flush that appends one row per sample to the open CSV file, forcing
    the file to disk on every fifth flush since the file was opened. The
    file is abstract: the lines appended to it and how many of them the
    last forced sync covered. */
module BatchWriter {
  import opened Common
  import opened SampleProcessor

  /** `batch_size`. */
  const BatchSize: nat := 10
  /** The sync period of `data_counter % 5 == 0`. */
  const SyncEvery: nat := 5

  /** One line of a data file: the `timestamp,group,values` header, or
      the row of one sample (its text formatting is not modelled). */
  datatype Line = Header | Row(sample: Sample)

  /** An open or closed data file: the lines appended to it, and how many
      of them the last `flush()` + `os.fsync` put on disk. */
  datatype DataFile = DataFile(lines: seq<Line>, synced: nat)

  /** What the operating system does with one flush: the buffered write
      raises, the forced sync raises after the write went through, or
      both succeed. */
  datatype IoOutcome = Succeeds | WriteFails | SyncFails

  /** `data_batch`, `current_data_file`, `data_counter`, and the files
      closed so far, oldest first. */
  datatype Recorder = Recorder(batch: seq<Sample>, file: Option<DataFile>, counter: nat, closed: seq<DataFile>)

  /** The rows of a run of samples, one per sample, in order. */
  function Rows(ss: seq<Sample>): (ls: seq<Line>)
    ensures |ls| == |ss| && forall i :: 0 <= i < |ss| ==> ls[i] == Row(ss[i])
  {
    seq(|ss|, i requires 0 <= i < |ss| => Row(ss[i]))
  }

  lemma RowsAppend(a: seq<Sample>, b: seq<Sample>)
    ensures Rows(a + b) == Rows(a) + Rows(b)
  {
  }

  /** A freshly created data file: the header only, nothing synced. */
  function NewFile(): (f: DataFile)
    ensures f.lines == [Header] && f.synced == 0
  {
    DataFile([Header], 0)
  }

  /** `flush_data_batch`. */
  function Flush(r: Recorder, io: IoOutcome): Recorder {
    if r.batch == [] || r.file.None? then r
    else if io == WriteFails then r
    else
      var lines := r.file.value.lines + Rows(r.batch);
      if r.counter % SyncEvery == 0 then
        if io == SyncFails then r.(file := Some(DataFile(lines, r.file.value.synced)))
        else r.(batch := [], file := Some(DataFile(lines, |lines|)), counter := r.counter + 1)
      else r.(batch := [], file := Some(DataFile(lines, r.file.value.synced)), counter := r.counter + 1)
  }

  /** The batching step of the processing loop for one group: only while
      collection is active does the sample join the batch, and a batch
      that has reached `BatchSize` is flushed. */
  function AddSample(r: Recorder, s: Sample, active: bool, io: IoOutcome): Recorder {
    if !active then r
    else
      var r' := r.(batch := r.batch + [s]);
      if |r'.batch| >= BatchSize then Flush(r', io) else r'
  }

  /** `create_new_data_file`: an open file is flushed and closed first,
      then a new file gets its header and the counter starts again. */
  function OpenNewFile(r: Recorder, io: IoOutcome): Recorder {
    var r' := if r.file.Some? then Flush(r, io) else r;
    var closed := if r'.file.Some? then r'.closed + [r'.file.value] else r'.closed;
    r'.(file := Some(NewFile()), counter := 0, closed := closed)
  }

  /** The pause branch of `toggle_data_collection`: flush, then close the
      open file, if any, and forget it. */
  function CloseFile(r: Recorder, io: IoOutcome): Recorder {
    var r' := Flush(r, io);
    if r'.file.Some? then r'.(file := None, closed := r'.closed + [r'.file.value]) else r'
  }

  /** What one flush does, case by case: nothing without rows or file; a
      failed write changes nothing; otherwise the batch's rows are
      appended, and the batch is cleared and the counter advanced unless
      the forced sync failed. The sync is attempted exactly on the flushes
      whose counter is a multiple of five. */
  lemma FlushCases(r: Recorder, io: IoOutcome)
    ensures var r' := Flush(r, io);
      && r'.closed == r.closed
      && (r.batch == [] || r.file.None? || io == WriteFails ==> r' == r)
      && (r.batch != [] && r.file.Some? && io != WriteFails ==>
        && r'.file.Some?
        && r'.file.value.lines == r.file.value.lines + Rows(r.batch)
        && (if r.counter % SyncEvery == 0 && io == SyncFails
            then r'.batch == r.batch && r'.counter == r.counter && r'.file.value.synced == r.file.value.synced
            else r'.batch == [] && r'.counter == r.counter + 1)
        && (io == Succeeds && r.counter % SyncEvery == 0 ==> r'.file.value.synced == |r'.file.value.lines|)
        && (r.counter % SyncEvery != 0 ==> r'.file.value.synced == r.file.value.synced))
  {
  }

  /** A sync that fails after its write went through keeps the batch, so
      the next successful flush writes the same rows a second time. */
  lemma {:induction false} SyncFailureRepeatsRows(r: Recorder)
    requires r.batch != [] && r.file.Some? && r.counter % SyncEvery == 0
    ensures var r' := Flush(Flush(r, SyncFails), Succeeds);
      r'.file.Some? && r'.file.value.lines == r.file.value.lines + Rows(r.batch) + Rows(r.batch)
      && r'.batch == [] && r'.counter == r.counter + 1
  {
    var r1 := Flush(r, SyncFails);
    assert r1.batch == r.batch && r1.counter == r.counter;
    assert r1.file.value.lines == r.file.value.lines + Rows(r.batch);
  }

  /** Adding a sample while collection is paused changes nothing; while
      active the sample is in the batch or already in the file. */
  lemma AddSampleEffect(r: Recorder, s: Sample, active: bool, io: IoOutcome)
    ensures !active ==> AddSample(r, s, active, io) == r
    ensures active && |r.batch| + 1 < BatchSize ==> AddSample(r, s, active, io) == r.(batch := r.batch + [s])
    ensures active && |r.batch| + 1 >= BatchSize && r.file.Some? && io == Succeeds ==>
      var r' := AddSample(r, s, active, io);
      r'.batch == [] && r'.file.Some? && r'.file.value.lines == r.file.value.lines + Rows(r.batch + [s])
  {
  }

  /** A new file always starts with the header and the counter at zero;
      the previous file, flushed, joins the closed files. */
  lemma OpenNewFileEffect(r: Recorder, io: IoOutcome)
    ensures var r' := OpenNewFile(r, io);
      r'.file == Some(NewFile()) && r'.counter == 0
      && (r.file.None? ==> r'.closed == r.closed && r'.batch == r.batch)
      && (r.file.Some? ==> r'.closed == r.closed + [Flush(r, io).file.value] && r'.batch == Flush(r, io).batch)
  {
  }

  /** Feeding samples one after the other; a flush that sample `k`
      triggers meets `io(k)`, so a write that failed on one sample can
      succeed on the next. */
  function AddEach(r: Recorder, ss: seq<Sample>, active: bool, io: nat -> IoOutcome): Recorder
    decreases |ss|
  {
    if ss == [] then r else AddSample(AddEach(r, ss[..|ss| - 1], active, io), ss[|ss| - 1], active, io(|ss| - 1))
  }

  /** While collection is paused, no sample reaches the batch or a file. */
  lemma {:induction false} PausedAddsNothing(r: Recorder, ss: seq<Sample>, io: nat -> IoOutcome)
    ensures AddEach(r, ss, false, io) == r
    decreases |ss|
  {
    if ss != [] {
      PausedAddsNothing(r, ss[..|ss| - 1], io);
    }
  }

  /** A write that fails keeps the full batch, and the flush triggered by
      the very next sample writes it together with that sample. */
  lemma WriteRetriedOnNextSample(r: Recorder, s1: Sample, s2: Sample, io: nat -> IoOutcome)
    requires |r.batch| + 1 == BatchSize && r.file.Some? && r.counter % SyncEvery != 0
    requires io(0) == WriteFails && io(1) == Succeeds
    ensures var r' := AddEach(r, [s1, s2], true, io);
      && r'.batch == [] && r'.counter == r.counter + 1
      && r'.file == Some(DataFile(r.file.value.lines + Rows(r.batch + [s1, s2]), r.file.value.synced))
  {
    var r1 := AddEach(r, [s1], true, io);
    assert [s1, s2][..1] == [s1];
    assert [s1][..0] == [];
    assert AddEach(r, [], true, io) == r;
    assert r1 == AddSample(r, s1, true, WriteFails);
    assert r1 == r.(batch := r.batch + [s1]);
    assert r.batch + [s1] + [s2] == r.batch + [s1, s2];
  }

  /** A file just opened with an empty batch. */
  function Fresh(closed: seq<DataFile>): Recorder {
    Recorder([], Some(NewFile()), 0, closed)
  }

  /** The file lags the disk by the rows written since the last forced
      sync: the header before the first flush, then ten rows for each of
      the at most four flushes since a flush numbered a multiple of five. */
  predicate Steady(r: Recorder) {
    && r.file.Some?
    && r.file.value.synced <= |r.file.value.lines|
    && |r.file.value.lines| - r.file.value.synced == (if r.counter == 0 then 1 else BatchSize * ((r.counter - 1) % SyncEvery))
    && |r.batch| < BatchSize
  }

  lemma DivModTen(m: nat)
    ensures (m + 1) / 10 == if m % 10 == 9 then m / 10 + 1 else m / 10
    ensures (m + 1) % 10 == if m % 10 == 9 then 0 else m % 10 + 1
  {
  }

  /** One more sample keeps the steady relation between batch, counter
      and file. */
  lemma AddSampleSteady(r: Recorder, s: Sample)
    requires Steady(r)
    ensures Steady(AddSample(r, s, true, Succeeds))
  {
    var r' := AddSample(r, s, true, Succeeds);
    if |r.batch| + 1 >= BatchSize {
      var c := r.counter;
      assert |r'.file.value.lines| == |r.file.value.lines| + BatchSize;
      if c % SyncEvery == 0 {
        assert r'.file.value.synced == |r'.file.value.lines|;
        assert (r'.counter - 1) % SyncEvery == 0;
      } else {
        assert c > 0 && (c - 1) % SyncEvery + 1 == c % SyncEvery;
      }
    }
  }

  /** The recorder after the samples `ss` from a fresh file, every write
      and sync succeeding: ten samples per flush done, fewer than ten
      batched, every earlier one a row of the file, in order. */
  predicate AfterFresh(r: Recorder, closed: seq<DataFile>, ss: seq<Sample>) {
    && |ss| == BatchSize * r.counter + |r.batch|
    && |r.batch| < BatchSize
    && r.batch == ss[BatchSize * r.counter..]
    && r.file.Some? && r.file.value.lines == [Header] + Rows(ss[..BatchSize * r.counter])
    && r.closed == closed
  }

  lemma AfterFreshBatch(r: Recorder, closed: seq<DataFile>, pre: seq<Sample>, s: Sample)
    requires AfterFresh(r, closed, pre) && |r.batch| + 1 < BatchSize
    ensures AfterFresh(AddSample(r, s, true, Succeeds), closed, pre + [s])
  {
    var ss := pre + [s];
    var k := BatchSize * r.counter;
    assert AddSample(r, s, true, Succeeds) == r.(batch := r.batch + [s]) by {
      AddSampleEffect(r, s, true, Succeeds);
    }
    assert pre[k..] + [s] == ss[k..];
    assert pre[..k] == ss[..k];
  }

  lemma AfterFreshFlush(r: Recorder, closed: seq<DataFile>, pre: seq<Sample>, s: Sample)
    requires AfterFresh(r, closed, pre) && |r.batch| + 1 == BatchSize
    ensures AfterFresh(AddSample(r, s, true, Succeeds), closed, pre + [s])
  {
    var r' := AddSample(r, s, true, Succeeds);
    assert r'.batch == [] && r'.file.Some? && r'.file.value.lines == r.file.value.lines + Rows(r.batch + [s])
      && r'.counter == r.counter + 1 && r'.closed == r.closed by {
      AddSampleEffect(r, s, true, Succeeds);
      FlushCases(r.(batch := r.batch + [s]), Succeeds);
    }
    FlushedBatchIsFiled(r, r', closed, pre, s);
  }

  lemma FlushedBatchIsFiled(r: Recorder, r': Recorder, closed: seq<DataFile>, pre: seq<Sample>, s: Sample)
    requires AfterFresh(r, closed, pre) && |r.batch| + 1 == BatchSize
    requires r'.batch == [] && r'.file.Some? && r'.file.value.lines == r.file.value.lines + Rows(r.batch + [s])
    requires r'.counter == r.counter + 1 && r'.closed == r.closed
    ensures AfterFresh(r', closed, pre + [s])
  {
    var ss := pre + [s];
    var k := BatchSize * r.counter;
    var a, b := pre[..k], r.batch + [s];
    assert b == ss[k..];
    assert a + b == ss;
    assert |ss| == BatchSize * r'.counter;
    assert ss[..BatchSize * r'.counter] == ss && ss[BatchSize * r'.counter..] == [];
    calc {
      r'.file.value.lines;
      ([Header] + Rows(a)) + Rows(b);
      [Header] + (Rows(a) + Rows(b));
      { RowsAppend(a, b); }
      [Header] + Rows(ss);
    }
  }

  /** `n == 10 * c + b` with `b < 10` is the division of `n` by ten. */
  lemma DivTen(n: nat, c: nat, b: nat)
    requires n == BatchSize * c + b && b < BatchSize
    ensures n / BatchSize == c && n % BatchSize == b
  {
  }

  /** From a freshly opened file, with every write and sync succeeding,
      `n` samples leave `n / 10` flushes behind them, the last `n % 10`
      samples in the batch, every earlier sample as a row of the file in
      arrival order, and the file never more than 40 rows ahead of the
      disk. */
  lemma {:induction false} AddEachFromFresh(closed: seq<DataFile>, ss: seq<Sample>, io: nat -> IoOutcome)
    requires forall k :: io(k) == Succeeds
    ensures var r := AddEach(Fresh(closed), ss, true, io);
      AfterFresh(r, closed, ss) && Steady(r)
      && r.counter == |ss| / BatchSize && |r.batch| == |ss| % BatchSize
      && |r.file.value.lines| - r.file.value.synced <= 4 * BatchSize + 1
    decreases |ss|
  {
    var r := AddEach(Fresh(closed), ss, true, io);
    if ss == [] {
      assert ss[0..] == [] && ss[..0] == [];
    } else {
      var pre := ss[..|ss| - 1];
      assert pre + [ss[|ss| - 1]] == ss;
      AddEachFromFresh(closed, pre, io);
      var r0 := AddEach(Fresh(closed), pre, true, io);
      assert io(|ss| - 1) == Succeeds;
      if |r0.batch| + 1 < BatchSize {
        AfterFreshBatch(r0, closed, pre, ss[|ss| - 1]);
      } else {
        AfterFreshFlush(r0, closed, pre, ss[|ss| - 1]);
      }
      AddSampleSteady(r0, ss[|ss| - 1]);
    }
    DivTen(|ss|, r.counter, |r.batch|);
  }

  /** The recorder of `NetworkDebugger`, its fields updated in place by the
      processing thread and the collection toggle. */
  class DataRecorder {
    var batch: seq<Sample>
    var file: Option<DataFile>
    var counter: nat
    var closed: seq<DataFile>

    function State(): Recorder
      reads this
    {
      Recorder(batch, file, counter, closed)
    }

    /** No file open, nothing batched (`__init__`). */
    constructor ()
      ensures State() == Recorder([], None, 0, [])
    {
      batch, file, counter, closed := [], None, 0, [];
    }

    method FlushBatch(io: IoOutcome)
      modifies this
      ensures State() == Flush(old(State()), io)
    {
      if batch == [] || file.None? {
        return;
      }
      if io == WriteFails {
        return;
      }
      var lines := file.value.lines + Rows(batch);
      if counter % SyncEvery == 0 {
        if io == SyncFails {
          file := Some(DataFile(lines, file.value.synced));
          return;
        }
        file := Some(DataFile(lines, |lines|));
      } else {
        file := Some(DataFile(lines, file.value.synced));
      }
      counter := counter + 1;
      batch := [];
    }

    method Add(s: Sample, active: bool, io: IoOutcome)
      modifies this
      ensures State() == AddSample(old(State()), s, active, io)
    {
      if active {
        batch := batch + [s];
        if |batch| >= BatchSize {
          FlushBatch(io);
        }
      }
    }

    method NewDataFile(io: IoOutcome)
      modifies this
      ensures State() == OpenNewFile(old(State()), io)
    {
      if file.Some? {
        FlushBatch(io);
        closed := closed + [file.value];
      }
      file := Some(NewFile());
      counter := 0;
    }

    method Close(io: IoOutcome)
      modifies this
      ensures State() == CloseFile(old(State()), io)
    {
      FlushBatch(io);
      if file.Some? {
        closed := closed + [file.value];
        file := None;
      }
    }
  }
}
