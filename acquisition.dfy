/** `NetworkDebugger` itself: the receive loop that frames the TCP stream
    and fills the packet queue (Professional/caiji.py:664-693), the
    processing loop that turns queued packets into samples for the live
    view and the data file (Professional/caiji.py:697-741), the collection
    toggle that opens, pauses and resumes a recording session
    (Professional/caiji.py:798-878), the channel-count change
    (Professional/caiji.py:551-567) and the plot pause
    (Professional/caiji.py:570-585). Each step is one call; the threads that
    run them concurrently, and the locks between them, are not modelled. */
module Acquisition {
  import opened Common
  import opened Wire
  import opened Text
  import opened FrameDecoder
  import opened PacketQueue
  import opened SampleProcessor
  import opened LiveBuffer
  import opened BatchWriter
  import Cycle
  import Config

  /** The queue entries for the packets cut from one chunk, in order,
      packet `i` stamped with `clock(i)`, the `time.time() - start_time`
      read just after it was cut. */
  function Entries(ps: seq<seq<byte>>, clock: nat -> real): (es: seq<Entry>)
    ensures |es| == |ps| && forall i :: 0 <= i < |ps| ==> es[i] == Entry(clock(i), ps[i])
  {
    seq(|ps|, i requires 0 <= i < |ps| => Entry(clock(i), ps[i]))
  }

  /** The live-view columns of a run of samples. */
  function Points(ss: seq<Sample>): (pts: seq<Point>)
    ensures |pts| == |ss| && forall i :: 0 <= i < |ss| ==> pts[i] == Point(ss[i].values, ss[i].timestamp)
  {
    seq(|ss|, i requires 0 <= i < |ss| => Point(ss[i].values, ss[i].timestamp))
  }

  class NetworkDebugger {
    /** `data_queue`. */
    const queue: BoundedQueue
    /** `plot_data`, `time_data` and `data_index`. */
    const wave: Waveform
    /** `data_batch`, `current_data_file` and `data_counter`. */
    const recorder: DataRecorder
    /** `cycle_count`, `cycle_stage`, `cycle_running` and `cycle_timer_id`. */
    const prompter: Cycle.CyclePrompter

    /** `data_buffer` of the running receive loop. */
    var rxBuffer: seq<byte>
    /** `num_channels` and `packet_size`. */
    var channels: nat
    var packetSize: nat
    /** `received_packets`: packets cut from the stream. */
    var receivedPackets: nat
    /** `processed_packets`: it counts channel groups, five per packet. */
    var processedPackets: nat
    var connected: bool
    var collectionStarted: bool
    /** `data_collection_active`. */
    var collectionActive: bool
    /** `plot_paused`. */
    var plotPaused: bool
    /** `paused_plot_data`, `paused_time_data`, `paused_data_index`. */
    var paused: Option<Snapshot>
    /** `cycle_total`, `contraction_time`, `relaxation_time` and
        `voice_broadcast_enabled`. */
    var settings: Cycle.Settings
    /** The text of the configuration file. */
    var configText: string

    ghost predicate Valid()
      reads this, queue, wave
    {
      && queue.Valid()
      && wave.Valid()
      && wave.Channels() == channels
      && MinChannels <= channels <= MaxChannels
      && packetSize == PacketSize(channels)
    }

    /** `__init__`: the channel count is read from the configuration file,
        nothing is connected, recorded or queued. */
    constructor (config: string, st: Cycle.Settings)
      ensures Valid()
      ensures channels == Config.LoadNumChannels(Config.ReadLines(config)) && configText == config && settings == st
      ensures queue.items == [] && wave.Window() == [] && rxBuffer == []
      ensures recorder.State() == Recorder([], None, 0, []) && prompter.Get() == Cycle.Initial
      ensures receivedPackets == 0 && processedPackets == 0
      ensures !connected && !collectionStarted && !collectionActive && !plotPaused && paused == None
    {
      var n := Config.LoadNumChannels(Config.ReadLines(config));
      channels := n;
      packetSize := PacketSize(n);
      queue := new BoundedQueue();
      wave := new Waveform(n);
      recorder := new DataRecorder();
      prompter := new Cycle.CyclePrompter();
      rxBuffer := [];
      receivedPackets, processedPackets := 0, 0;
      connected, collectionStarted, collectionActive, plotPaused := false, false, false, false;
      paused := None;
      settings := st;
      configText := config;
    }

    /** One `sock.recv` of the receive loop. An empty chunk is the peer
        closing the connection: the loop ends and its buffer with it.
        Otherwise the chunk is framed, and every packet cut is counted and
        queued, drop-oldest, packet `i` of the chunk with the receive
        time `clock(i)`. */
    method ReceiveChunk(chunk: seq<byte>, clock: nat -> real) returns (ended: bool)
      requires Valid()
      modifies this, queue
      ensures Valid()
      ensures ended <==> chunk == []
      ensures chunk == [] ==> rxBuffer == [] && queue.items == old(queue.items) && receivedPackets == old(receivedPackets)
      ensures chunk != [] ==>
        var (ps, rest) := Cut(old(rxBuffer) + chunk, packetSize);
        && rxBuffer == rest
        && queue.items == Latest(old(queue.items) + Entries(ps, clock), Capacity)
        && receivedPackets == old(receivedPackets) + |ps|
      ensures channels == old(channels) && packetSize == old(packetSize) && processedPackets == old(processedPackets)
      ensures connected == old(connected) && collectionStarted == old(collectionStarted)
      ensures collectionActive == old(collectionActive) && plotPaused == old(plotPaused) && paused == old(paused)
      ensures settings == old(settings) && configText == old(configText)
    {
      if chunk == [] {
        rxBuffer := [];
        return true;
      }
      var rest, ps := DecodeChunk(rxBuffer, chunk, packetSize);
      rxBuffer := rest;
      EnqueueAll(queue, Entries(ps, clock));
      receivedPackets := receivedPackets + |ps|;
      ended := false;
    }

    /** One packet's samples, group by group, to the recorder and the live
        view; each group is counted in `processed_packets`. A flush that
        group `g` triggers meets `io(g)`. */
    method StoreGroups(ss: seq<Sample>, io: nat -> IoOutcome)
      requires Valid()
      requires forall g :: 0 <= g < |ss| ==> |ss[g].values| == channels
      modifies this, wave, wave.plot, wave.times, recorder
      ensures Valid() && wave.plot == old(wave.plot) && wave.times == old(wave.times)
      ensures wave.Window() == Latest(old(wave.Window()) + Points(ss), MaxPoints)
      ensures recorder.State() == AddEach(old(recorder.State()), ss, old(collectionActive), io)
      ensures processedPackets == old(processedPackets) + |ss|
      ensures rxBuffer == old(rxBuffer) && channels == old(channels) && packetSize == old(packetSize)
      ensures receivedPackets == old(receivedPackets) && connected == old(connected)
      ensures collectionStarted == old(collectionStarted) && collectionActive == old(collectionActive)
      ensures plotPaused == old(plotPaused) && paused == old(paused)
      ensures settings == old(settings) && configText == old(configText)
    {
      FeedGroups(wave, recorder, ss, collectionActive, io);
      processedPackets := processedPackets + |ss|;
    }

    /** One turn of `process_data_thread`: the oldest queued packet, if
        any, is taken. A packet of the wrong length is dropped with an
        error; otherwise each of its five groups goes to the batch (while
        collecting; a flush that group `g` triggers meets `io(g)`) and to
        the live view. */
    method ProcessNext(io: nat -> IoOutcome) returns (r: Option<Decoded>)
      requires Valid()
      modifies this, queue, wave, wave.plot, wave.times, recorder
      ensures Valid() && wave.plot == old(wave.plot) && wave.times == old(wave.times)
      ensures old(queue.items) == [] ==> r == None && queue.items == []
      ensures old(queue.items) != [] ==>
        queue.items == old(queue.items)[1..] && r == Some(DecodePacket(old(queue.items)[0].recvTime, old(queue.items)[0].packet, channels))
      ensures match r
        case Some(Groups(ss)) =>
          && wave.Window() == Latest(old(wave.Window()) + Points(ss), MaxPoints)
          && recorder.State() == AddEach(old(recorder.State()), ss, collectionActive, io)
          && processedPackets == old(processedPackets) + GroupsPerPacket
        case _ =>
          && wave.Window() == old(wave.Window())
          && recorder.State() == old(recorder.State())
          && processedPackets == old(processedPackets)
      ensures rxBuffer == old(rxBuffer) && channels == old(channels) && packetSize == old(packetSize)
      ensures receivedPackets == old(receivedPackets) && connected == old(connected)
      ensures collectionStarted == old(collectionStarted) && collectionActive == old(collectionActive)
      ensures plotPaused == old(plotPaused) && paused == old(paused)
      ensures settings == old(settings) && configText == old(configText)
    {
      var e := queue.Get();
      if e.None? {
        return None;
      }
      var d := DecodePacket(e.value.recvTime, e.value.packet, channels);
      r := Some(d);
      if d.Groups? {
        StoreGroups(d.samples, io);
      }
    }

    /** The collection button. The first press starts a session, a later
        press pauses or resumes it. Starting and resuming open a new data
        file (flushing and closing the previous one through `io`), clear
        the live view and start the cycle prompts; pausing stops the
        prompts, flushes the batch, snapshots the live view and closes the
        file. The result is what the sequencer scheduled. */
    method ToggleDataCollection(io: IoOutcome) returns (e: Cycle.Effects)
      requires Valid()
      modifies this, wave, recorder, prompter
      ensures Valid()
      ensures collectionStarted
      ensures collectionActive == (!old(collectionStarted) || !old(collectionActive))
      ensures collectionActive ==>
        && recorder.State() == OpenNewFile(old(recorder.State()), io)
        && wave.Window() == [] && fresh(wave.plot) && fresh(wave.times)
        && (prompter.Get(), e) == Cycle.Start(old(prompter.Get()), settings)
        && paused == old(paused)
      ensures !collectionActive ==>
        && recorder.State() == CloseFile(old(recorder.State()), io)
        && prompter.Get() == Cycle.Stop(old(prompter.Get())).0 && e == Cycle.Quiet
        && wave.Window() == old(wave.Window()) && wave.plot == old(wave.plot) && wave.times == old(wave.times)
        && paused.Some? && Shaped(paused.value) && SnapshotWindow(paused.value) == wave.Window()
      ensures queue.items == old(queue.items) && rxBuffer == old(rxBuffer)
      ensures channels == old(channels) && packetSize == old(packetSize)
      ensures receivedPackets == old(receivedPackets) && processedPackets == old(processedPackets)
      ensures connected == old(connected) && plotPaused == old(plotPaused)
      ensures settings == old(settings) && configText == old(configText)
    {
      if collectionStarted {
        collectionActive := !collectionActive;
      } else {
        collectionStarted := true;
        collectionActive := true;
      }
      if collectionActive {
        e := OpenSession(wave, recorder, prompter, settings, io);
      } else {
        var s := CloseSession(wave, recorder, prompter, io);
        paused := Some(s);
        e := Cycle.Quiet;
      }
    }

    /** The image pause button: pausing keeps a snapshot of the live view
        to draw instead of it; resuming drops the snapshot. */
    method TogglePausePlot()
      requires Valid()
      modifies this
      ensures Valid()
      ensures plotPaused == !old(plotPaused)
      ensures plotPaused ==> paused.Some? && Shaped(paused.value) && SnapshotWindow(paused.value) == wave.Window()
      ensures !plotPaused ==> paused == None
      ensures queue.items == old(queue.items) && rxBuffer == old(rxBuffer)
      ensures channels == old(channels) && packetSize == old(packetSize)
      ensures receivedPackets == old(receivedPackets) && processedPackets == old(processedPackets)
      ensures connected == old(connected) && collectionStarted == old(collectionStarted)
      ensures collectionActive == old(collectionActive)
      ensures settings == old(settings) && configText == old(configText)
    {
      plotPaused := !plotPaused;
      if plotPaused {
        var s := wave.Snap();
        paused := Some(s);
      } else {
        paused := None;
      }
    }

    /** `change_channel_count` with the spin box text: refused while
        connected, rejected unless an integer in 1..16; otherwise the count
        is saved to the configuration file, the packet size follows it and
        the live view gets zero rows for the new count. */
    method ChangeChannelCount(text: string) returns (r: Config.ChannelChange)
      requires Valid()
      modifies this, wave
      ensures Valid()
      ensures r == Config.CheckChannelCount(old(connected), text)
      ensures r.Changed? ==>
        && channels == r.channels && packetSize == PacketSize(r.channels)
        && configText == Config.SaveNumChannels(old(configText), r.channels)
        && wave.Window() == Blanked(old(wave.Window()), r.channels)
      ensures !r.Changed? ==>
        && channels == old(channels) && packetSize == old(packetSize) && configText == old(configText)
        && wave.plot == old(wave.plot) && wave.index == old(wave.index)
      ensures queue.items == old(queue.items) && rxBuffer == old(rxBuffer) && wave.times == old(wave.times)
      ensures receivedPackets == old(receivedPackets) && processedPackets == old(processedPackets)
      ensures connected == old(connected) && collectionStarted == old(collectionStarted)
      ensures collectionActive == old(collectionActive) && plotPaused == old(plotPaused) && paused == old(paused)
      ensures settings == old(settings)
    {
      r := Config.CheckChannelCount(connected, text);
      if r.Changed? {
        SetChannels(r.channels);
      }
    }

    /** The accepted branch of `change_channel_count`: the count saved,
        the packet size and the live view following it. */
    method SetChannels(n: nat)
      requires Valid() && MinChannels <= n <= MaxChannels
      modifies this, wave
      ensures Valid()
      ensures channels == n && packetSize == PacketSize(n)
      ensures configText == Config.SaveNumChannels(old(configText), n)
      ensures wave.Window() == Blanked(old(wave.Window()), n)
      ensures queue.items == old(queue.items) && rxBuffer == old(rxBuffer) && wave.times == old(wave.times)
      ensures receivedPackets == old(receivedPackets) && processedPackets == old(processedPackets)
      ensures connected == old(connected) && collectionStarted == old(collectionStarted)
      ensures collectionActive == old(collectionActive) && plotPaused == old(plotPaused) && paused == old(paused)
      ensures settings == old(settings)
    {
      var saved := Config.SaveChannelsFile(configText, n);
      wave.Resize(n);
      channels, packetSize, configText := n, PacketSize(n), saved;
    }

    /** A client accepted by the listening socket: collection is not
        started, and a new receive loop starts with an empty buffer. */
    method ClientAccepted()
      requires Valid()
      modifies this
      ensures Valid()
      ensures !collectionStarted && !collectionActive && rxBuffer == []
      ensures queue.items == old(queue.items) && channels == old(channels) && packetSize == old(packetSize)
      ensures receivedPackets == old(receivedPackets) && processedPackets == old(processedPackets)
      ensures connected == old(connected) && plotPaused == old(plotPaused) && paused == old(paused)
      ensures settings == old(settings) && configText == old(configText)
    {
      collectionStarted, collectionActive := false, false;
      rxBuffer := [];
    }

    /** `self.connected = ...` in `start_connection` and `stop_connection`. */
    method SetConnected(up: bool)
      requires Valid()
      modifies this
      ensures Valid() && connected == up
      ensures queue.items == old(queue.items) && rxBuffer == old(rxBuffer)
      ensures channels == old(channels) && packetSize == old(packetSize)
      ensures receivedPackets == old(receivedPackets) && processedPackets == old(processedPackets)
      ensures collectionStarted == old(collectionStarted) && collectionActive == old(collectionActive)
      ensures plotPaused == old(plotPaused) && paused == old(paused)
      ensures settings == old(settings) && configText == old(configText)
    {
      connected := up;
    }
  }

  /** The `put_nowait` of every packet cut from one chunk, in order. */
  method EnqueueAll(q: BoundedQueue, es: seq<Entry>)
    requires q.Valid()
    modifies q
    ensures q.Valid() && q.items == Latest(old(q.items) + es, Capacity)
  {
    ghost var q0 := q.items;
    var i := 0;
    assert q0 + es[..0] == q0;
    while i < |es|
      invariant 0 <= i <= |es| && q.Valid()
      invariant q.items == Latest(q0 + es[..i], Capacity)
    {
      q.PutDropOldest(es[i]);
      LatestStep(q0, es[..i], es[i], Capacity);
      assert es[..i] + [es[i]] == es[..i + 1];
      i := i + 1;
    }
    assert es[..|es|] == es;
  }

  /** The `for group_index in range(5)` loop: each sample joins the batch
      (while `active`, a flush on sample `g` meeting `io(g)`) and then the
      live view. */
  method FeedGroups(wave: Waveform, recorder: DataRecorder, ss: seq<Sample>, active: bool, io: nat -> IoOutcome)
    requires wave.Valid()
    requires forall g :: 0 <= g < |ss| ==> |ss[g].values| == wave.Channels()
    modifies wave, wave.plot, wave.times, recorder
    ensures wave.Valid() && wave.plot == old(wave.plot) && wave.times == old(wave.times)
    ensures wave.Window() == Latest(old(wave.Window()) + Points(ss), MaxPoints)
    ensures recorder.State() == AddEach(old(recorder.State()), ss, active, io)
  {
    ghost var w0 := wave.Window();
    ghost var r0 := recorder.State();
    var g := 0;
    assert w0 + Points(ss[..0]) == w0 && ss[..0] == [];
    while g < |ss|
      invariant 0 <= g <= |ss| && wave.Valid()
      invariant wave.plot == old(wave.plot) && wave.times == old(wave.times)
      invariant wave.Window() == Latest(w0 + Points(ss[..g]), MaxPoints)
      invariant recorder.State() == AddEach(r0, ss[..g], active, io)
    {
      FeedGroup(wave, recorder, ss[g], active, io(g));
      RecorderStep(r0, ss, g, active, io);
      WindowStep(w0, ss, g);
      g := g + 1;
    }
    assert ss[..|ss|] == ss;
  }

  /** One turn of that loop: the sample joins the batch, meeting `o` if
      it triggers a flush, and then the live view. */
  method FeedGroup(wave: Waveform, recorder: DataRecorder, s: Sample, active: bool, o: IoOutcome)
    requires wave.Valid() && |s.values| == wave.Channels()
    modifies wave, wave.plot, wave.times, recorder
    ensures wave.Valid() && wave.plot == old(wave.plot) && wave.times == old(wave.times)
    ensures wave.Window() == Latest(old(wave.Window()) + [Point(s.values, s.timestamp)], MaxPoints)
    ensures recorder.State() == AddSample(old(recorder.State()), s, active, o)
  {
    recorder.Add(s, active, o);
    wave.Append(s.values, s.timestamp);
  }

  /** Starting or resuming collection: `create_new_data_file`, the cleared
      live view, and `start_cycle_prompt`. */
  method OpenSession(wave: Waveform, recorder: DataRecorder, prompter: Cycle.CyclePrompter, st: Cycle.Settings, io: IoOutcome)
    returns (e: Cycle.Effects)
    requires wave.Valid()
    modifies wave, recorder, prompter
    ensures wave.Valid() && wave.Channels() == old(wave.Channels())
    ensures recorder.State() == OpenNewFile(old(recorder.State()), io)
    ensures wave.Window() == [] && fresh(wave.plot) && fresh(wave.times)
    ensures (prompter.Get(), e) == Cycle.Start(old(prompter.Get()), st)
  {
    recorder.NewDataFile(io);
    wave.Reset();
    e := prompter.StartPrompt(st);
  }

  /** Pausing collection: `stop_cycle_prompt`, the flush, the snapshot of
      the live view, and the file closed. */
  method CloseSession(wave: Waveform, recorder: DataRecorder, prompter: Cycle.CyclePrompter, io: IoOutcome)
    returns (s: Snapshot)
    requires wave.Valid()
    modifies recorder, prompter
    ensures recorder.State() == CloseFile(old(recorder.State()), io)
    ensures prompter.Get() == Cycle.Stop(old(prompter.Get())).0
    ensures Shaped(s) && SnapshotWindow(s) == wave.Window()
  {
    var _ := prompter.StopPrompt();
    s := wave.Snap();
    recorder.Close(io);
  }

  lemma RecorderStep(r0: Recorder, ss: seq<Sample>, g: nat, active: bool, io: nat -> IoOutcome)
    requires g < |ss|
    ensures AddSample(AddEach(r0, ss[..g], active, io), ss[g], active, io(g)) == AddEach(r0, ss[..g + 1], active, io)
  {
    assert ss[..g + 1][..g] == ss[..g];
  }

  lemma WindowStep(w0: seq<Point>, ss: seq<Sample>, g: nat)
    requires g < |ss|
    ensures Latest(Latest(w0 + Points(ss[..g]), MaxPoints) + [Point(ss[g].values, ss[g].timestamp)], MaxPoints)
      == Latest(w0 + Points(ss[..g + 1]), MaxPoints)
  {
    LatestStep(w0, Points(ss[..g]), Point(ss[g].values, ss[g].timestamp), MaxPoints);
    assert Points(ss[..g]) + [Point(ss[g].values, ss[g].timestamp)] == Points(ss[..g + 1]);
  }

  /** Queued packets are decoded with the channel count of the moment they
      are processed: after a change of count, a packet framed for the old
      count is dropped as a length mismatch. */
  lemma StalePacketDropped(recvTime: real, packet: seq<byte>, before: nat, after: nat)
    requires MinChannels <= before <= MaxChannels && MinChannels <= after <= MaxChannels && before != after
    requires |packet| == PacketSize(before)
    ensures DecodePacket(recvTime, packet, after).LengthMismatch?
  {
    PacketSizeDeterminesChannels(before);
    PacketSizeDeterminesChannels(after);
  }
}
