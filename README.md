# EMG acquisition and control: a verified model

This project models the core of two Tkinter programs that work with a
surface-EMG rig.

**`NetworkDebugger` (Professional/caiji.py)** receives a TCP stream of
binary packets. Each packet is the marker byte 0xAA, a sequence byte, and
five groups of `num_channels` float32 values. The program:
- frames the stream into packets and resynchronises on the marker;
- hands the packets to a processing loop through a drop-oldest queue of
  10000 entries;
- back-dates the five groups of a packet 1 ms apart;
- draws them in a fill-then-slide buffer of 10000 columns;
- while a recording session is active, writes them to a CSV file in
  batches of ten, forcing every fifth flush to disk.

A recording session can drive a spoken contract/relax exercise sequence.
The channel count, the connection address and the exercise parameters are
checked and saved as `key=value` lines of a configuration file.

**`WiFiHardwareController` (Professional/kongzhi.py)** talks to the
device over a text channel:
- commands go out as UTF-8 lines;
- replies come back as lines, which are stripped and dispatched by a
  chain of twenty prefixes;
- EMG readings are kept in a history of at most 100 points;
- a training countdown sends "start" and "pause" and shows the time left
  as `MM:SS`.

## Modules

- `Common`: bytes, `Option`, and `Latest`, the keep-the-newest-n window
  that the packet queue, the waveform buffer and the EMG history all
  implement.
- `Text`: the Python string built-ins the code relies on:
  - `str.strip`, `startswith`, `find`, `split`;
  - `int(str)`, `str(n)`, `f"{n:02d}"`.
- `Utf8`: `str.encode('utf-8')` and `bytes.decode('utf-8')` after
  sections 3 and 4 of RFC 3629, with an incremental decoder beside the
  strict one.
- `Wire`: `packet_size`, `group_data_size`, and the four bytes of a value.
- `FrameDecoder`: the `receive_data` framing loop.
- `PacketQueue`: `data_queue`.
- `SampleProcessor`: the per-packet arithmetic of `process_data_thread`.
- `LiveBuffer`: `plot_data`, `time_data` and `data_index`, a class over
  arrays with the roll loop.
- `BatchWriter`: `data_batch`, `data_counter` and the data files.
- `Cycle`: `start_cycle_prompt`, `cycle_next_stage` and `stop_cycle_prompt`.
- `Config`: the channel-count, connection and experiment checks, the
  `save_*` line rewriting, and the loaders.
- `Acquisition`: the `NetworkDebugger` class tying these together.
- `Countdown`: the training countdown.
- `Replies`: `process_received_data`.
- `ControlLink`: the `WiFiHardwareController` class:
  - the line framer;
  - `send_command`;
  - the receive loop;
  - the EMG history.

Stateful parts are classes whose methods are specified by pure step
functions over the old state. The properties are proved as lemmas about
those functions.

## Model

| member | source | states |
|---|---|---|
| Common.Latest | Professional/caiji.py:686-693 | The window is the last `n` elements of the input, or all of it when shorter. |
| Common.SlideAllIsLatest | Professional/caiji.py:686-693 | Feeding elements one at a time into a drop-oldest window of capacity `n` leaves the last `n` of them, in order. |
| Common.LatestOfLatest | Professional/kongzhi.py:675-677 | Trimming a window that was already trimmed changes nothing more. |
| Common.SlideAllFromEmpty | Professional/caiji.py:112 | An empty window fed with a sequence holds its latest `n` elements. |
| Common.SlideAll | Professional/caiji.py:686-693 | Feeding elements one at a time into a drop-oldest window; `SlideAllIsLatest` proves it leaves the latest `n`. |
| Text.TrimStart | Professional/kongzhi.py:589 | `lstrip` removes exactly the leading whitespace: the result is a suffix, everything cut is a space, and what remains does not start with one. |
| Text.TrimEnd | Professional/kongzhi.py:589 | `rstrip` removes exactly the trailing whitespace. |
| Text.Strip | Professional/kongzhi.py:589 | A stripped line neither starts nor ends with whitespace, and contains only characters of the input. |
| Text.StripUnpadded | Professional/kongzhi.py:589 | Stripping text with no outer whitespace is the identity. |
| Text.StripNewline | Professional/caiji.py:1379 | `line.strip()` removes the newline of a saved `key=value` line and nothing else. |
| Text.MatchKey | Professional/kongzhi.py:601-681 | Returns the first prefix in the list that the line starts with, and no earlier prefix matches; `None` means no prefix matches. |
| Text.PrefixFreeMatch | Professional/caiji.py:1714-1726 | When no key is a prefix of another, a line starting with key `k` is dispatched to `k`. |
| Text.MatchKeyAt | Professional/kongzhi.py:601-681 | A line that starts with prefix `k`, and with no earlier prefix, is dispatched to `k`. |
| Text.Find | Professional/kongzhi.py:663 | `str.find` returns the first occurrence of the substring, or -1 exactly when it occurs nowhere. |
| Text.FindChar | Professional/kongzhi.py:587-588 | For one character: -1 exactly when absent, and otherwise the index of its first occurrence. |
| Text.Split | Professional/kongzhi.py:610 | `str.split(c)` has at least one part, and no part contains `c`. |
| Text.JoinSplit | Professional/kongzhi.py:588 | Joining the parts of a split with the separator gives back the text. |
| Text.SplitAfter | Professional/kongzhi.py:588 | Splitting `a + c + b`, with `c` absent from `a`, gives `a` followed by the parts of `b`. |
| Text.SecondOfPair | Professional/caiji.py:1763 | `split('=')[1]` of `key=value`, with no `=` in either, is the value. |
| Text.SecondIsSplit | Professional/kongzhi.py:610 | `split(c)[1]`, computed through `find`, is the second part of the split, and is missing (an IndexError) exactly when the split has one part. |
| Text.BeforeIsSplit | Professional/kongzhi.py:661 | The text before the first separator is the first part of the split. |
| Text.NatToString | Professional/caiji.py:1398 | `str(n)` is a non-empty run of digits that reads back as `n`. |
| Text.Pad2 | Professional/kongzhi.py:266 | `f"{n:02d}"` has at least two digits and reads back as `n`. |
| Text.ParseNatToString | Professional/caiji.py:1379 | `int(str(n)) == n`. |
| Text.IsNumeral | Professional/caiji.py:557 | The numerals `int()` reads after the sign: ASCII digits, with single underscores between two digits (see Left out). |
| Text.ParseInt | Professional/caiji.py:557 | `int(text)`: surrounding whitespace stripped, an optional sign, then a numeral; anything else is nothing (a `ValueError`). `ParseNatToString` proves it reads back `str(n)`. |
| Text.Second | Professional/kongzhi.py:610 | `split(sep)[1]`, the text between the first and the second separator; nothing (an `IndexError`) exactly when the separator is absent. `SecondIsSplit` ties it to `Split`. |
| Text.Before | Professional/kongzhi.py:661 | `split(sep)[0]`, a prefix of the text ending before the first separator; `BeforeIsSplit` ties it to `Split`. |
| Utf8.EncodeChar | Professional/kongzhi.py:502 | A character encodes as 1 to 4 bytes: a lead byte announcing the length, then continuation bytes. |
| Utf8.Encode | Professional/kongzhi.py:502 | `str.encode('utf-8')`: the characters' encodings joined; `DecodeEncode` and `EncodeAppend` state its properties. |
| Utf8.DecodeChar | Professional/kongzhi.py:579 | One well-formed sequence of 1 to 4 bytes to its character, refusing overlong forms and surrogates; `DecodeEncodeChar` inverts `EncodeChar`. |
| Utf8.Decode | Professional/kongzhi.py:579 | `bytes.decode('utf-8')`, failing on any malformed or cut sequence; `DecodeEncode` inverts `Encode`. |
| Utf8.DecodeEncode | Professional/kongzhi.py:502 | Decoding undoes encoding: `s.encode('utf-8').decode('utf-8') == s`. |
| Utf8.DecodeEncodeChar | Professional/kongzhi.py:502 | A character's bytes decode back to that character. |
| Utf8.EncodeAppend | Professional/kongzhi.py:502 | Encoding distributes over concatenation. |
| Utf8.DecodePrefix | Professional/kongzhi.py:579 | A decoding that stops inside a character keeps fewer than four unfinished bytes. |
| Utf8.DecodePrefixAppend | Professional/kongzhi.py:579 | Decoding two pieces, carrying the unfinished tail of the first into the second, reads what decoding them whole reads. |
| Utf8.DecodedNonEmpty | Professional/kongzhi.py:579-580 | A non-empty chunk that decodes yields non-empty text, so `if not data` is true only for an empty chunk. |
| Wire.GroupSizeAligned | Professional/caiji.py:75 | `group_data_size` is four bytes per channel. |
| Wire.PacketSize | Professional/caiji.py:75-76 | `packet_size = 2 + 5 * group_data_size`; `PacketSizeDeterminesChannels` proves it determines the channel count. |
| Wire.PacketSizeDeterminesChannels | Professional/caiji.py:75-76 | `packet_size = 2 + 5 * 4 * channels` determines the channel count; for 1..16 channels it lies in 22..322. |
| Wire.WordOfBytesOf | Professional/caiji.py:714 | The four bytes of a value read back as the value. |
| Wire.BytesOfWordOf | Professional/caiji.py:714 | Any four bytes are the bytes of the value they spell. |
| Wire.Unpack | Professional/caiji.py:714 | `struct.unpack` of `4k` bytes yields `k` values. |
| Wire.UnpackAt | Professional/caiji.py:714 | Value `i` of an unpack is spelled by bytes `4i..4i+4`. |
| Wire.UnpackPack | Professional/caiji.py:714 | Unpacking packed values gives them back. |
| Wire.PackUnpack | Professional/caiji.py:714 | Packing unpacked bytes gives them back. |
| FrameDecoder.FindByte | Professional/caiji.py:674 | `bytes.find` for the marker returns its first index, or -1 exactly when it is absent. |
| FrameDecoder.Resync | Professional/caiji.py:673-679 | Dropping bytes up to the next marker, or all of them; `ResyncIsSuffix` and `ResyncSkipsGarbage` state what is kept. |
| FrameDecoder.Cut | Professional/caiji.py:672-683 | The framing loop as a function; `CutPackets`, `CutRest` and `DecodeChunk` state its result. |
| FrameDecoder.ResyncIsSuffix | Professional/caiji.py:673-679 | Resynchronising keeps a suffix that is empty or starts with the marker, and drops only marker-free bytes. |
| FrameDecoder.ResyncSkipsGarbage | Professional/caiji.py:673-679 | Marker-free garbage before a marker is dropped; with no marker at all, the accumulator is cleared. |
| FrameDecoder.CutPackets | Professional/caiji.py:672-683 | Every packet cut is exactly `packet_size` bytes long and starts with 0xAA. |
| FrameDecoder.CutRest | Professional/caiji.py:672-683 | When the loop exits, the accumulator is shorter than `packet_size` and is a suffix of what it held. |
| FrameDecoder.DecodeChunk | Professional/caiji.py:671-683 | The in-place loop over the accumulator yields `Cut(acc + chunk)`: whole marker-led packets, and a leftover shorter than a packet. |
| FrameDecoder.CutStreamPrefix | Professional/caiji.py:672-683 | Cutting any prefix of a garbage-and-packets stream yields the leading packets, and leaves a rest that, followed by the unread bytes, is again such a stream. |
| FrameDecoder.FeedRecoversPackets | Professional/caiji.py:664-683 | Feeding such a stream chunk by chunk from a short accumulator yields exactly its packets, in order. |
| FrameDecoder.ChunkingDoesNotMatter | Professional/caiji.py:664-683 | `N` packets, each preceded by marker-free garbage, come out exactly and in order under any chunking of the stream. |
| PacketQueue.BoundedQueue.constructor | Professional/caiji.py:112 | The queue starts empty. |
| PacketQueue.BoundedQueue.PutDropOldest | Professional/caiji.py:686-693 | An enqueue never blocks: the queue becomes the latest 10000 entries of the old queue plus the new one. |
| PacketQueue.BoundedQueue.Get | Professional/caiji.py:705-707 | Get removes and returns the oldest entry; on an empty queue it returns nothing and changes nothing. |
| PacketQueue.PutAtCapacity | Professional/caiji.py:686-693 | Below capacity the entry is appended; at capacity the oldest entry is removed and the new one goes at the tail. |
| SampleProcessor.GroupTimestampsSpacing | Professional/caiji.py:715 | Group timestamps are strictly increasing and 1 ms apart; the last group is at `recv_time` and the first is 4 ms before it. |
| SampleProcessor.GroupTimestamp | Professional/caiji.py:715 | `recv_time - (4 - g) * 0.001`; `GroupTimestampsSpacing` proves the spacing. |
| SampleProcessor.GroupBytes | Professional/caiji.py:712-713 | Each group slice is `group_data_size` bytes long. |
| SampleProcessor.GroupSample | Professional/caiji.py:711-715 | Group `g` carries index `g`, `num_channels` values, and the back-dated timestamp. |
| SampleProcessor.DecodePacket | Professional/caiji.py:708-738 | A packet yields five groups exactly when its length is `packet_size`; otherwise the error names the expected and the actual length. |
| SampleProcessor.PayloadGroup | Professional/caiji.py:712-713 | Group `g` of a payload built from five value groups is the bytes of value group `g`. |
| SampleProcessor.EncodedGroup | Professional/caiji.py:708-715 | Processing a packet built from five value groups yields group `g`'s values with its timestamp and index. |
| SampleProcessor.DecodeEncodedPacket | Professional/caiji.py:708-715 | Processing a packet built from values gives back exactly those values, in five timestamped groups. |
| SampleProcessor.BlocksEqual | Professional/caiji.py:711-713 | Two payloads that agree on every group slice are equal. |
| SampleProcessor.GroupValues | Professional/caiji.py:711-714 | A packet of the right length splits into five groups of `num_channels` values. |
| SampleProcessor.ReencodedGroup | Professional/caiji.py:711-714 | Repacking the values of group `g` gives back the packet's bytes for that group. |
| SampleProcessor.DecodedPacketReencodes | Professional/caiji.py:708-715 | The values processed from a marker-led packet of the right length re-encode to exactly that packet: no byte is lost or reordered. |
| LiveBuffer.Zeros | Professional/caiji.py:90-91 | `np.zeros`: `n` zero values. |
| LiveBuffer.RollLeft | Professional/caiji.py:731 | `np.roll(time_data, -1)` moves every element one place left, in place, and puts the first at the end. |
| LiveBuffer.Waveform.Window | Professional/caiji.py:723-734 | The filled columns of the buffer, one point per column, `data_index` of them. |
| LiveBuffer.Waveform.constructor | Professional/caiji.py:88-93 | A zeroed `channels` x 10000 buffer with index 0 and an empty window. |
| LiveBuffer.Waveform.Reset | Professional/caiji.py:807-811 | Session start: fresh zeroed arrays, index 0, empty window, same channel count. |
| LiveBuffer.Waveform.Resize | Professional/caiji.py:564 | A channel-count change replaces `plot_data` with zeros of the new height, and keeps the times and the index. |
| LiveBuffer.Waveform.WriteColumn | Professional/caiji.py:725-727 | Writes one column of values and its time, and nothing else. |
| LiveBuffer.Waveform.RollRow | Professional/caiji.py:730 | Rolls one row one place to the left, in place, and leaves the other rows unchanged. |
| LiveBuffer.Waveform.RollColumns | Professional/caiji.py:730 | `np.roll(plot_data, -1, axis=1)`: every row rolls one place to the left. |
| LiveBuffer.Waveform.Append | Professional/caiji.py:723-734 | After an append, the window is the latest 10000 points of the old window plus the new one, so the index never exceeds 10000. |
| LiveBuffer.Waveform.Snap | Professional/caiji.py:849-852 | The pause copy holds every cell, the times and the index, and shows the current window. |
| LiveBuffer.Blanked | Professional/caiji.py:564 | After a channel-count change, every filled column keeps its time and holds zeros for the new channels. |
| LiveBuffer.SnapshotWindow | Professional/caiji.py:849-852 | A snapshot shows `paused_data_index` points. |
| BatchWriter.Rows | Professional/caiji.py:749-751 | One row per batched sample, in order. |
| BatchWriter.RowsAppend | Professional/caiji.py:749-751 | The rows of two runs are the rows of each, joined. |
| BatchWriter.NewFile | Professional/caiji.py:794 | A new data file holds only the header, and nothing of it is synced yet. |
| BatchWriter.Flush | Professional/caiji.py:743-759 | `flush_data_batch`; `FlushCases` and `SyncFailureRepeatsRows` state its cases. |
| BatchWriter.AddSample | Professional/caiji.py:718-721 | Batching one group; `AddSampleEffect` states it. |
| BatchWriter.OpenNewFile | Professional/caiji.py:783-795 | `create_new_data_file`; `OpenNewFileEffect` states it. |
| BatchWriter.CloseFile | Professional/caiji.py:847-878 | The pause branch: flush, close and forget the file; `DataRecorder.Close` applies it. |
| BatchWriter.AddEach | Professional/caiji.py:711-735 | Batching a run of groups, sample `i` meeting outcome `io(i)`; `AddEachFromFresh`, `PausedAddsNothing` and `WriteRetriedOnNextSample` state it. |
| BatchWriter.FlushCases | Professional/caiji.py:743-759 | Flush is a no-op without a batch or a file, and after a failed write. Otherwise it appends the batch's rows. It syncs exactly when `data_counter % 5 == 0`. It clears the batch and bumps the counter unless the write raised. |
| BatchWriter.SyncFailureRepeatsRows | Professional/caiji.py:752-759 | A sync failure keeps the batch, so the next flush writes the same rows a second time. |
| BatchWriter.AddSampleEffect | Professional/caiji.py:718-721 | A sample joins the batch only while collection is active, and the tenth triggers a flush of all ten. |
| BatchWriter.PausedAddsNothing | Professional/caiji.py:718 | With collection paused, no sample changes the recorder. |
| BatchWriter.OpenNewFileEffect | Professional/caiji.py:783-795 | A new file flushes and closes the open one first, then starts with the header and counter 0. |
| BatchWriter.AddSampleSteady | Professional/caiji.py:718-757 | With writes succeeding, a recorder stays steady. Its batch stays below ten. Its unsynced rows are the header before the first flush, then ten per flush since the last forced sync. |
| BatchWriter.AfterFreshBatch | Professional/caiji.py:718-720 | Below ten samples, a sample after a fresh file is only batched. |
| BatchWriter.AfterFreshFlush | Professional/caiji.py:720-721 | The tenth sample after a fresh file moves the whole batch into the file. |
| BatchWriter.AddEachFromFresh | Professional/caiji.py:718-756 | From a fresh file, with every write succeeding, `k` samples give `k / 10` flushes and a batch of `k % 10`. Every row is filed in order, and at most 41 rows are unsynced. |
| BatchWriter.WriteRetriedOnNextSample | Professional/caiji.py:718-756 | When the tenth sample's flush fails to write, the batch is kept; the next sample grows it to eleven and its successful flush writes all eleven rows, in order. |
| BatchWriter.DataRecorder.constructor | Professional/caiji.py:59-62 | No batch, no file, counter 0. |
| BatchWriter.DataRecorder.FlushBatch | Professional/caiji.py:743-759 | `flush_data_batch` updates the state as `Flush` says. |
| BatchWriter.DataRecorder.Add | Professional/caiji.py:718-721 | Batching one group updates the state as `AddSample` says. |
| BatchWriter.DataRecorder.NewDataFile | Professional/caiji.py:783-795 | `create_new_data_file` updates the state as `OpenNewFile` says. |
| BatchWriter.DataRecorder.Close | Professional/caiji.py:847-878 | Pausing flushes, closes and forgets the file, as `CloseFile` says. |
| Cycle.Millis | Professional/caiji.py:1600 | `int(seconds * 1000)` truncates toward zero. |
| Cycle.Start | Professional/caiji.py:1589-1600 | `start_cycle_prompt`; `StartWithoutVoice` and `WholeExperiment` state it. |
| Cycle.Next | Professional/caiji.py:1602-1652 | `cycle_next_stage`; `FinishStep`, `IdleIsInert`, `CountInRange`, `DelayFollowsPrompt`, `OneCycle` and `RunFrom` state it. |
| Cycle.Stop | Professional/caiji.py:1654-1659 | `stop_cycle_prompt`; `StopIdempotent` states it. |
| Cycle.StartWithoutVoice | Professional/caiji.py:1592-1594 | With voice off, starting changes nothing and schedules nothing. |
| Cycle.StopIdempotent | Professional/caiji.py:1654-1659 | Stop clears `running` and the timer, cancels only a pending timer, and is safe to repeat. |
| Cycle.IdleIsInert | Professional/caiji.py:1617-1619 | A callback with `running` false and `stage != 3` changes nothing. |
| Cycle.FinishStep | Professional/caiji.py:1604-1616 | The callback after the last relax sets `stage = 4` and `running = False`, and schedules the collection toggle exactly when voice is on. Every later call is a no-op. |
| Cycle.CountInRange | Professional/caiji.py:1621-1652 | `cycle_count` stays in `1..cycle_total`. |
| Cycle.DelayFollowsPrompt | Professional/caiji.py:1621-1652 | With voice on, a prompt is spoken exactly when a delay is scheduled. A contract is followed by the contraction time, a relax by the relaxation time. |
| Cycle.Expected | Professional/caiji.py:1596-1652 | From cycle `n`, the remaining run has `2 * (total - n) + 3` steps. |
| Cycle.ExpectedStep | Professional/caiji.py:1621-1652 | The expected run is a contract and a relax per cycle, then "实验结束". |
| Cycle.OneCycle | Professional/caiji.py:1621-1645 | Two callbacks from the contract stage prompt contract `n` and then relax `n + 1`, and move to the next cycle, or to the final stage after the last. |
| Cycle.TraceSplit | Professional/caiji.py:1602-1652 | Running `j + k` callbacks is running `j`, then `k`. |
| Cycle.RunFrom | Professional/caiji.py:1621-1652 | From cycle `n` at the contract stage, the callbacks emit the expected prompts and delays, and end finished and stopped. |
| Cycle.WholeExperiment | Professional/caiji.py:1589-1652 | With voice on, a start is followed by `cycle_total` contracts and relaxes, alternating from contract, then the end prompt and the toggle. The sequencer then stays quiet. |
| Cycle.CyclePrompter.constructor | Professional/caiji.py:1589-1600 | The sequencer starts stopped with no timer. |
| Cycle.CyclePrompter.StartPrompt | Professional/caiji.py:1589-1600 | `start_cycle_prompt` updates the fields as `Start` says. |
| Cycle.CyclePrompter.NextStage | Professional/caiji.py:1602-1652 | `cycle_next_stage` updates the fields as `Next` says. |
| Cycle.CyclePrompter.StopPrompt | Professional/caiji.py:1654-1659 | `stop_cycle_prompt` updates the fields as `Stop` says. |
| Config.CheckChannelCount | Professional/caiji.py:551-560 | A change is refused while connected. Otherwise it is accepted exactly when `int(text)` succeeds with a value in 1..16, and the new count is that value. |
| Config.ChannelCountAccepted | Professional/caiji.py:556-563 | Every count in 1..16 is accepted when disconnected, and its packet size gives the count back. |
| Config.ReadLines | Professional/caiji.py:1392 | `f.readlines()`: every line is non-empty, has a newline only at its end, and every line but the last has one; only empty text has no lines. |
| Config.WriteReadLines | Professional/caiji.py:1392-1408 | Writing the lines read gives the text back: `readlines` loses nothing. |
| Config.ReadLinesAfter | Professional/caiji.py:1392 | A terminated line followed by more text is read as that line first. |
| Config.ReadLinesLast | Professional/caiji.py:1392 | A line without a newline is read as one line. |
| Config.ReadWrittenLines | Professional/caiji.py:1392-1408 | Lines of the shape `readlines` gives, written and read again, come back unchanged. |
| Config.Terminate | Professional/caiji.py:1404 | The correction: the last line gets a newline if it lacks one; every line is then terminated, and no line changes otherwise. |
| Config.TerminatedTextUnchanged | Professional/caiji.py:1392-1404 | For a file that is empty or ends with a newline, the correction changes nothing, so the helpers as written and as corrected agree there. |
| Config.LastLineEnds | Professional/caiji.py:1408 | The text of non-empty lines ends with the last character of their last line. |
| Config.KeyLineShaped | Professional/caiji.py:1398 | A key line without inner newlines is one terminated line. |
| Config.NumeralNoNewline | Professional/caiji.py:1398 | `str(n)` holds no newline. |
| Config.ReplaceFirstTerminated | Professional/caiji.py:1395-1404 | Replacing or appending a terminated key line keeps every line terminated. |
| Config.KeyLinesTerminated | Professional/caiji.py:1716-1735 | Key lines built from keys and values without newlines are all terminated. |
| Config.KeyLine | Professional/caiji.py:1398 | A saved line starts with its key. |
| Config.KeyLineValue | Professional/caiji.py:1763 | A saved text value reads back through `strip().split('=')[1]`. |
| Config.KeyLineNat | Professional/caiji.py:1379 | A saved number reads back through `int(strip().split('=')[1])`. |
| Config.IntValue | Professional/caiji.py:1379 | `int(line.strip().split('=')[1])`, or nothing on a `ValueError` or `IndexError`; `KeyLineNat` reads a saved number back through it. |
| Config.TextValue | Professional/caiji.py:1763 | `line.strip().split('=')[1]`, or nothing on an `IndexError`; `KeyLineValue` reads a saved value back through it. |
| Config.FirstMatch | Professional/caiji.py:1396-1400 | Finds the first line with the key; no earlier line has it. |
| Config.SaveFirst | Professional/caiji.py:1395-1404 | `save_num_channels`' loop replaces the first line with the key, or appends one. |
| Config.ReplacedAt | Professional/caiji.py:1395-1404 | After saving, the new line is present and no earlier line has the key. |
| Config.ReplaceFirstIdempotent | Professional/caiji.py:1395-1404 | Saving the same line twice equals saving it once. |
| Config.ReplaceFirst | Professional/caiji.py:1395-1404 | `save_num_channels`' update loop on the lines; `ReplacedAt`, `ReplaceFirstIdempotent` and `SaveFirst` state it. |
| Config.LoadNumChannels | Professional/caiji.py:1373-1384 | The loaded channel count is always in 1..16. |
| Config.LoadSkips | Professional/caiji.py:1377-1381 | Lines without the key do not affect the loaded count. |
| Config.SavedChannelsLoad | Professional/caiji.py:1386-1408 | Saving a count in 1..16 into the config file, whatever text it held, and loading the lines read back gives that count. The last line is terminated before the key line is appended (see Findings). |
| Config.SavedChannelsLoadLines | Professional/caiji.py:1373-1404 | On the lines read: loading after the update loop has saved a count in 1..16 gives that count. |
| Config.SaveChannelsFile | Professional/caiji.py:1386-1408 | `save_num_channels` on the file text, corrected: the lines read, the last one terminated (the correction, which `save_num_channels` does not make; see Findings), the key line replaced or appended, the lines written. The result is `SaveNumChannels`. |
| Config.UnterminatedLineLosesCount | Professional/caiji.py:1390-1408 | As written, a file whose only line has no newline and is not a `num_channels=` line gets the key line glued to that line, and the count loads back as the default 1. |
| Config.UnterminatedConfigExample | Professional/caiji.py:1390-1408 | As written, saving 4 channels into a file holding just `y_top_main=1.5` loads back 1. |
| Config.PresentIff | Professional/caiji.py:1714-1726 | A key is found exactly when some line is dispatched to it by the `elif` chain. |
| Config.FileUnder | Professional/caiji.py:1714-1726 | The `elif` chain files a line under its first matching key. |
| Config.Rewritten | Professional/caiji.py:1714-1726 | The loop rewrites each line in place, line by line. |
| Config.RewriteLines | Professional/caiji.py:1713-1726 | The in-place loop yields the rewritten lines and the `found_*` flags. |
| Config.Rewrite | Professional/caiji.py:1714-1726 | One line through the `elif` chain; `Rewritten` and `UpdatedKeys` state its effect. |
| Config.UpdateKeys | Professional/caiji.py:1713-1735 | Rewriting every line and appending the missing keys; `UpdatedKeys`, `UpdateKeysIdempotent` and `NothingAppended` state it. |
| Config.SaveKeys | Professional/caiji.py:1707-1738 | A `save_*` helper rewrites all lines and appends the missing keys, as `UpdateKeys` says. |
| Config.AppendedLines | Professional/caiji.py:1728-1735 | Exactly the missing keys' lines are appended. |
| Config.UpdatedKeys | Professional/caiji.py:1713-1735 | After saving, every line under a key is that key's new line, and every key is present. |
| Config.UpdateKeysIdempotent | Professional/caiji.py:1713-1735 | Saving twice equals saving once. |
| Config.NothingAppended | Professional/caiji.py:1728-1735 | When every key is present, nothing is appended. |
| Config.LastIndex | Professional/caiji.py:1670-1679 | The position a loader reads a key from is a line filed under that key with no later line filed under it; with none, no line carries the key. |
| Config.LastMatch | Professional/caiji.py:1670-1679 | The line read for a key is filed under that key, and no later line is; with no such line, the default stands. The loaders' stop at a value that `int()` or `float()` refuses is not modelled (see Left out). |
| Config.SavedKeysLoad | Professional/caiji.py:1707-1738 | For the corrected multi-key save, which terminates the last line first: after saving into the config file, whatever text it held, the loader reads each key's new line from the lines read back. As written this fails for an unterminated last line (`UnterminatedLineLosesKey`). |
| Config.SavedKeysLoadLines | Professional/caiji.py:1661-1735 | On the lines read: after the update loop and the appends, the loader reads each key's new line. |
| Config.SavedKeysReadBack | Professional/caiji.py:1707-1738 | What a multi-key save writes reads back as exactly the lines it updated. |
| Config.UpdateKeysTerminated | Professional/caiji.py:1713-1735 | Updating terminated lines with terminated key lines leaves every line terminated. |
| Config.KeyLines | Professional/caiji.py:1716-1725 | One `key=value` line per key, in order. |
| Config.PrefixFreeKeyed | Professional/caiji.py:1714-1726 | Lines built from prefix-free keys are well keyed. |
| Config.ConnectionKeysPrefixFree | Professional/caiji.py:1815-1821 | `ip_address=` and `port_number=` are prefix-free. |
| Config.ExperimentKeysPrefixFree | Professional/caiji.py:1714-1726 | The four experiment keys are prefix-free. |
| Config.YAxisKeysPrefixFree | Professional/caiji.py:1440-1445 | The y-axis keys of either mode are prefix-free. |
| Config.FirstBadOctet | Professional/caiji.py:1785-1795 | There is no bad octet exactly when every part is an integer in 0..255. |
| Config.CheckConnection | Professional/caiji.py:1772-1805 | An accepted address is the stripped text, has the dotted-quad shape, and comes with a port in 1..65535. |
| Config.ConnectionAcceptedIff | Professional/caiji.py:1772-1805 | Accepted exactly when the port parses into 1..65535 and the address is a dotted quad of octets in 0..255. A bad port is `PortNotInteger`; a bad shape is `BadIpFormat`. |
| Config.QuadShape | Professional/caiji.py:1778-1779 | Four 1-3 digit groups joined by dots match the address pattern and split back into the groups. |
| Config.QuadAccepted | Professional/caiji.py:1772-1805 | Four valid octets and a valid port are accepted. |
| Config.AcceptedWhen | Professional/caiji.py:1772-1805 | A well-shaped address with valid octets and a valid port is accepted. |
| Config.DottedQuadAccepted | Professional/caiji.py:1772-1805 | `a.b.c.d` with octets up to 255 and a port in 1..65535 is accepted as written. |
| Config.IpShapeText | Professional/caiji.py:1778-1779 | A matching address has no outer whitespace and no `=`, so it survives the save-and-load round trip. |
| Config.LoadWrittenConnection | Professional/caiji.py:1754-1768 | Loading lines whose address and port lines are the saved ones reads those values. |
| Config.ReadConnectionLine | Professional/caiji.py:1761-1766 | One line of `load_connection_params`' loop; `LoadWrittenConnection` uses it. |
| Config.LoadConnection | Professional/caiji.py:1754-1768 | `load_connection_params` over the lines; `LoadWrittenConnection` and `SavedConnectionLoads` state what it reads. |
| Config.SavedConnectionLoads | Professional/caiji.py:1754-1831 | For the corrected save, which terminates the last line first: after an accepted save into the config file, whatever text it held, loading gives back the address and the port. As written this fails for an unterminated last line (`IpLostAsWritten`). |
| Config.SavedConnectionLoadsLines | Professional/caiji.py:1754-1827 | On the lines read: after an accepted save, loading gives back the address and the port. |
| Config.ConnectionLinesReadBack | Professional/caiji.py:1810-1831 | The two connection lines, for an address without a newline, read back as exactly the lines the save updated. |
| Config.CheckExperiment | Professional/caiji.py:1684-1706 | Saved settings are exactly the entered ones. |
| Config.SavedExperimentDelays | Professional/caiji.py:1693-1701 | Saved exactly when total is 1..50 and both times are 1..60 s, so every cycle delay is 1000..60000 ms. |
| Config.SavedExperimentLoads | Professional/caiji.py:1661-1738 | For the corrected save, which terminates the last line first: after saving into the config file, whatever text it held, each experiment key loads its new line. As written this fails for an unterminated last line (`CycleTotalLostAsWritten`). |
| Config.SavedExperimentLoadsLines | Professional/caiji.py:1661-1735 | On the lines read: after saving, each experiment key loads its new line. |
| Config.SavedYAxisLoads | Professional/caiji.py:1412-1463 | For the corrected save, which terminates the last line first: after saving into the config file, whatever text it held, each y-axis key loads its new line. As written this fails for an unterminated last line (`YTopLostAsWritten`). |
| Config.SavedYAxisLoadsLines | Professional/caiji.py:1412-1459 | On the lines read: after saving, each y-axis key loads its new line. |
| Config.SaveKeysTextAsWritten | Professional/caiji.py:1444-1463 | `save_yaxis_range`, `save_experiment_params` and `save_connection_params` as written on the file text: the lines read, updated and written back, with no newline added to the last line; `UnterminatedLineLosesKey` states what it loses. |
| Config.AppendedAll | Professional/caiji.py:1728-1735 | When none of the keys is present, every key line is appended, in key order. |
| Config.UnkeyedLine | Professional/caiji.py:1714-1726 | A line whose first character starts none of the keys is filed under none of them. |
| Config.UnkeyedLineUpdated | Professional/caiji.py:1707-1735 | As written, a file of one unterminated line filed under no key is updated to that line followed by every key line. |
| Config.GluedLinesRead | Professional/caiji.py:1736-1738 | An unterminated line written before terminated lines is read back glued to the first of them. |
| Config.UnterminatedLineGlued | Professional/caiji.py:1707-1738 | As written, a multi-key save into a file of one unterminated line filed under no key writes the first key line glued to that line, and reads back as the glued line followed by the other key lines. |
| Config.UnterminatedLineLosesKey | Professional/caiji.py:1707-1738 | As written, a multi-key save into a file whose only line has no newline and carries no key writes that line with the first key line glued to it. The first key then has no line of its own, so the loader keeps its default. |
| Config.IpLostAsWritten | Professional/caiji.py:1810-1831 | As written, an accepted connection save into such a file (`num_channels=4`, say) loads back the default address and only the saved port. |
| Config.IpLostFor | Professional/caiji.py:1810-1831 | As written, saving an address without a newline and a port into a file of one unterminated line that starts with neither key loads back the default address and the saved port. |
| Config.PortKeptAsWritten | Professional/caiji.py:1754-1831 | As written, when the glued line is filed under neither key, only the port line is read back. |
| Config.ConnectionLinesKeyed | Professional/caiji.py:1816-1827 | The two connection lines are terminated and filed under their own keys, and the port line reads back as the port. |
| Config.PortOnlyLoads | Professional/caiji.py:1754-1768 | An unkeyed line followed by a port line loads as the default address and that port. |
| Config.CycleTotalLostAsWritten | Professional/caiji.py:1707-1738 | As written, an experiment save into such a file leaves no `cycle_total=` line, so `load_experiment_params` keeps its default of 10. |
| Config.YTopLostAsWritten | Professional/caiji.py:1444-1463 | As written, a y-axis save into such a file leaves no line for the top limit, so `load_yaxis_range` keeps its default of 1.5. |
| Acquisition.Entries | Professional/caiji.py:684-687 | Packet `i` of a chunk is queued with its own receive time `clock(i)`, the clock read just after it was cut, and the packets keep their order. |
| Acquisition.Points | Professional/caiji.py:723-734 | One waveform point per group, with its values and timestamp. |
| Acquisition.EnqueueAll | Professional/caiji.py:682-693 | Queueing a chunk's packets leaves the latest 10000 entries. |
| Acquisition.FeedGroups | Professional/caiji.py:711-735 | A packet's groups slide into the live window and go through the batching step, in order. A flush that group `g` triggers meets its own I/O outcome `io(g)`. |
| Acquisition.FeedGroup | Professional/caiji.py:718-734 | One group joins the batch as `AddSample` says, meeting its own outcome, and then slides into the live window. |
| Acquisition.OpenSession | Professional/caiji.py:801-843 | Starting or resuming collection opens a new file, blanks the waveform, and starts the cycle sequence. |
| Acquisition.CloseSession | Professional/caiji.py:844-855 | Pausing collection closes the file, stops the cycle, and snapshots the waveform. |
| Acquisition.StalePacketDropped | Professional/caiji.py:708-738 | A packet framed under the old channel count is rejected after a change. |
| Acquisition.NetworkDebugger.constructor | Professional/caiji.py:35-125 | The channel count is loaded from the lines read from the config text, the config text is kept, and all buffers, counters and flags start empty or false. |
| Acquisition.NetworkDebugger.ReceiveChunk | Professional/caiji.py:663-693 | An empty chunk ends the loop. Otherwise the chunk's packets are cut, counted and queued drop-oldest, packet `i` with its own receive time `clock(i)`, and the leftover is kept. |
| Acquisition.NetworkDebugger.StoreGroups | Professional/caiji.py:716-735 | Groups go to the waveform window and the recorder, and `processed_packets` counts groups. A flush that group `g` triggers meets `io(g)`. |
| Acquisition.NetworkDebugger.ProcessNext | Professional/caiji.py:701-741 | Takes the oldest packet. A good one updates the window, the recorder (a flush on group `g` meeting `io(g)`) and the count; a wrong-length one only reports. |
| Acquisition.NetworkDebugger.ToggleDataCollection | Professional/caiji.py:798-878 | The first press starts a session. Later presses alternate pause and resume: pause flushes, closes, stops the cycle and snapshots; resume opens a new file, blanks the waveform and starts the cycle. |
| Acquisition.NetworkDebugger.TogglePausePlot | Professional/caiji.py:571-586 | Pausing the plot snapshots the current window; resuming drops the snapshot. |
| Acquisition.NetworkDebugger.ChangeChannelCount | Professional/caiji.py:551-569 | The result is `CheckChannelCount`. A change updates the count, the packet size, the waveform height and the config text, which becomes `SaveNumChannels` of the old text; a refusal changes nothing. |
| Acquisition.NetworkDebugger.SetChannels | Professional/caiji.py:560-564 | The accepted branch: the count and packet size become `n`, the config text becomes `SaveNumChannels` of the old text, the waveform gets zero rows for `n`, and nothing else changes. |
| Acquisition.NetworkDebugger.ClientAccepted | Professional/caiji.py:645-664 | A new client resets the collection flags and starts from an empty accumulator. |
| Acquisition.NetworkDebugger.SetConnected | Professional/caiji.py:623-638 | Only the connection flag changes. |
| Countdown.ClockReadsBack | Professional/kongzhi.py:264-266 | The `MM:SS` label splits at the colon into minutes and two-digit seconds below 60 that give back the time. |
| Countdown.ClockZero | Professional/kongzhi.py:275 | The run-out label "00:00" is the clock of zero. |
| Countdown.ClockInjective | Professional/kongzhi.py:264-266 | Different times never show the same label. |
| Countdown.RunsOut | Professional/kongzhi.py:260-276 | A running countdown with `r` left shows `r`, ..., 1 on its next `r` ticks. The tick after shows "00:00", sends "pause" and stops at zero. |
| Countdown.StartRunsOut | Professional/kongzhi.py:218-276 | A start of `d` sends "start", shows `d` at once, and pauses at "00:00" after `d` more ticks. |
| Countdown.StartRefusedIff | Professional/kongzhi.py:218-236 | "start" is always sent first. The error box and "pause" come exactly when stopped with a duration that is not a positive integer, and nothing else changes. |
| Countdown.ResumeRestartsIff | Professional/kongzhi.py:239-247 | Resume restarts the ticks exactly when stopped with time left; otherwise it only sends "start". |
| Countdown.PauseIdempotent | Professional/kongzhi.py:249-258 | Pause keeps the time left, stops, and clears the pending tick. A second pause changes nothing more. |
| Countdown.PauseThenResume | Professional/kongzhi.py:239-258 | Resume after a pause continues from the time that was left. |
| Countdown.StepsKeepConsistent | Professional/kongzhi.py:218-276 | A tick is pending exactly while the countdown runs, so no second tick chain is started. |
| Countdown.Tick | Professional/kongzhi.py:260-276 | `update_countdown`; `RunsOut`, `ClockZero` and `StepsKeepConsistent` state it. |
| Countdown.Start | Professional/kongzhi.py:218-236 | `start_training`; `StartRefusedIff` and `StartRunsOut` state it. |
| Countdown.Resume | Professional/kongzhi.py:239-247 | `resume_training`; `ResumeRestartsIff` and `PauseThenResume` state it. |
| Countdown.Pause | Professional/kongzhi.py:249-258 | `pause_training`; `PauseIdempotent` states it. |
| Countdown.CountdownTimer.constructor | Professional/kongzhi.py:171-173 | Starts at zero, stopped, with no tick. |
| Countdown.CountdownTimer.StartTraining | Professional/kongzhi.py:218-236 | `start_training` updates the fields as `Start` says. |
| Countdown.CountdownTimer.ResumeTraining | Professional/kongzhi.py:239-247 | `resume_training` updates the fields as `Resume` says. |
| Countdown.CountdownTimer.PauseTraining | Professional/kongzhi.py:249-258 | `pause_training` updates the fields as `Pause` says. |
| Countdown.CountdownTimer.UpdateCountdown | Professional/kongzhi.py:260-276 | `update_countdown` updates the fields as `Tick` says. |
| Replies.ReplyChainFits | Professional/kongzhi.py:601-681 | The twenty prefixes and their branches line up. |
| Replies.FieldOf | Professional/kongzhi.py:609-631 | The value is the part after the first separator, which the prefix ends with. |
| Replies.Dispatch | Professional/kongzhi.py:601-681 | A line is ignored exactly when it matches no prefix. A value reply carries part 1 of the line split at its separator. |
| Replies.Classify | Professional/kongzhi.py:599-681 | The same over the program's prefix chain. |
| Replies.DispatchAt | Professional/kongzhi.py:601-681 | The first matching prefix decides the reply's kind and field. |
| Replies.ClassifyAt | Professional/kongzhi.py:601-681 | The first matching prefix in source order wins. |
| Replies.ThresholdAppliedReachesItsBranch | Professional/kongzhi.py:624-631 | "THRESHOLD_APPLIED:v" reaches its own branch, not the earlier "THRESHOLD:", and carries `v`. |
| Replies.ThresholdAppliedLine | Professional/kongzhi.py:624-629 | Such a line matches prefix 10 first and splits into key and value. |
| Replies.EmgReadingReachesItsBranch | Professional/kongzhi.py:658-663 | An "EMG值:" line becomes an EMG reading, with the text after ": " and whether "已连接" occurs. |
| Replies.EmgText | Professional/kongzhi.py:661 | `line.split(": ")[1].split(",")[0]`, or nothing when there is no `: ` (an `IndexError`); `EmgReadingReachesItsBranch` uses it. |
| Replies.CalibrationStartedReachesItsBranch | Professional/kongzhi.py:632-633 | "CALIBRATION_STARTED" lines reach their own branch, not the earlier calibration prefixes. |
| ControlLink.Kept | Professional/kongzhi.py:589-590 | Lines passed on are stripped and non-empty. |
| ControlLink.KeptAvoids | Professional/kongzhi.py:589-590 | Keeping lines adds no character that the pieces avoid. |
| ControlLink.Frame | Professional/kongzhi.py:587-592 | Every line passed on is a stripped, non-empty, newline-free line, and the leftover has no newline. |
| ControlLink.FrameDone | Professional/kongzhi.py:587 | A buffer with no newline yields no line. |
| ControlLink.FrameStep | Professional/kongzhi.py:587-592 | One pass cuts at the first newline, strips the head, and passes it on when it is non-empty. |
| ControlLink.FrameAppend | Professional/kongzhi.py:585-592 | Framing `a + b` is framing `a`, then framing its leftover followed by `b`: lines keep arrival order across chunks. |
| ControlLink.FrameLines | Professional/kongzhi.py:587-592 | The in-place while loop yields the lines and the leftover of `Frame`. |
| ControlLink.OutgoingAppend | Professional/kongzhi.py:502 | Each command adds `command + "\n"` to the wire. |
| ControlLink.Outgoing | Professional/kongzhi.py:502 | The text of the commands sent so far, each with its newline; `OutgoingAppend` and `CommandsReadBack` state it. |
| ControlLink.CommandsReadBack | Professional/kongzhi.py:502-592 | The sent bytes of clean commands decode and frame back into exactly those commands. |
| ControlLink.CommandsFrame | Professional/kongzhi.py:587-592 | Framing the outgoing text of clean commands gives those commands and no leftover. |
| ControlLink.LineFrames | Professional/kongzhi.py:587-592 | One clean command frames as itself. |
| ControlLink.ReceiveStrict | Professional/kongzhi.py:579-592 | The receive pass as written, which never carries bytes over. |
| ControlLink.ReceiveStep | Professional/kongzhi.py:579-592 | The incremental pass carries fewer than four bytes to the next chunk. |
| ControlLink.ChunkingInvisible | Professional/kongzhi.py:579-592 | With an incremental decoder, two chunks give what their concatenation gives. |
| ControlLink.StepAgreesOnWholeCharacters | Professional/kongzhi.py:579-592 | On a chunk of whole characters, the incremental pass agrees with the pass as written. |
| ControlLink.WholeChunkFrames | Professional/kongzhi.py:579-592 | A chunk of whole characters is decoded, appended to the buffer and framed. |
| ControlLink.CutCharacter | Professional/kongzhi.py:579-597 | A chunk that ends inside a multi-byte character fails as written; the incremental pass keeps its first byte. |
| ControlLink.CutCharacterCarried | Professional/kongzhi.py:579-592 | Carrying the cut byte into the next chunk reads the whole text. |
| ControlLink.EmgHistory.constructor | Professional/kongzhi.py:37-39 | Both lists start empty. |
| ControlLink.EmgHistory.Record | Professional/kongzhi.py:670-677 | Values and times are appended together and trimmed to the latest 100. |
| ControlLink.Added | Professional/kongzhi.py:658-679 | A reply adds at most one reading; a value that does not parse adds none. |
| ControlLink.Recorded | Professional/kongzhi.py:658-679 | A run of replies adds at most one reading each. |
| ControlLink.RecordedAppend | Professional/kongzhi.py:658-679 | Readings accumulate in reply order. |
| ControlLink.AddedTime | Professional/kongzhi.py:670-672 | A reply adds the time read while it is handled exactly when it adds a value. |
| ControlLink.RecordedTimes | Professional/kongzhi.py:670-672 | A run of replies adds one time per value it records, reply `k`'s at `clock(k)`. |
| ControlLink.RecordedTimesAppend | Professional/kongzhi.py:670-672 | Times accumulate in reply order, each reply stamped by its own position. |
| ControlLink.RecordedPaired | Professional/kongzhi.py:658-677 | Reading `i` is the value of some line `k` at or after position `i`, and its time is `clock(k)`: each value carries the time of its own line. |
| ControlLink.Zip | Professional/kongzhi.py:671-672 | Value `i` pairs with time `i`. |
| ControlLink.HistoryStaysPaired | Professional/kongzhi.py:670-677 | Both lists stay equal-length, hold at most 100 entries, and pair each value with its time, newest last. |
| ControlLink.ZipLatest | Professional/kongzhi.py:675-677 | Trimming two paired lists together keeps them paired. |
| ControlLink.HistoryStep | Professional/kongzhi.py:670-677 | One reply's update equals recording the run with it. |
| ControlLink.RecordReply | Professional/kongzhi.py:658-679 | One reply appends its reading, if any, with the time `t` read then, and trims both lists. |
| ControlLink.HandleLines | Professional/kongzhi.py:587-681 | Each line is classified in order. The values become the latest 100 of the old readings plus the new ones, and the times likewise, line `k`'s reading stamped `clock(k)`. |
| ControlLink.DecodeAndFrame | Professional/kongzhi.py:579-592 | Computes the receive pass as written. |
| ControlLink.DecodeAndFrameIncremental | Professional/kongzhi.py:579-592 | Computes the incremental receive pass. |
| ControlLink.Controller.constructor | Professional/kongzhi.py:30-39 | Disconnected, with an empty buffer, wire and history and a zero countdown. |
| ControlLink.Controller.Connected | Professional/kongzhi.py:576 | Connecting starts from an empty buffer. |
| ControlLink.Controller.Disconnect | Professional/kongzhi.py:478-493 | Only the connection flag drops. |
| ControlLink.Controller.SendCommand | Professional/kongzhi.py:495-507 | Not connected: nothing is sent. Otherwise exactly `command + "\n"` goes out as UTF-8, and a failed send disconnects. |
| ControlLink.Controller.SendAll | Professional/kongzhi.py:495-507 | Commands sent in turn go out in order. The link stays up exactly when it was up and the send succeeded or there was nothing to send; otherwise nothing goes out. |
| ControlLink.Controller.StartTraining | Professional/kongzhi.py:218-236 | The countdown moves as `Start` says and its commands go out in order. When the link was down or the send failed, nothing goes out, and the link stays up only if there was nothing to send. |
| ControlLink.Controller.ResumeTraining | Professional/kongzhi.py:239-247 | The countdown moves as `Resume` says and "start" goes out. When the link was down or the send failed, nothing goes out and the link is down afterwards. |
| ControlLink.Controller.PauseTraining | Professional/kongzhi.py:249-258 | The countdown moves as `Pause` says and "pause" goes out. When the link was down or the send failed, nothing goes out and the link is down afterwards. |
| ControlLink.Controller.UpdateCountdown | Professional/kongzhi.py:260-276 | A tick moves as `Tick` says; the run-out tick sends "pause". A failed or impossible send sends nothing and leaves the link down; a tick that sends nothing keeps the link as it was. |
| ControlLink.Controller.Receive | Professional/kongzhi.py:574-597 | As written: a decoded chunk's lines are classified and recorded, the rest is buffered, the values become the latest 100 of the old and new readings and the times likewise, line `k`'s reading stamped `clock(k)`. An empty or undecodable chunk disconnects and leaves the history unchanged. |
| ControlLink.Controller.ReceiveIncremental | Professional/kongzhi.py:574-597 | The same with an incremental decoder, which carries a cut character to the next chunk: values and times are updated together, and a failed pass leaves both unchanged. |

## Findings

| source | as written | input that shows it | evidently intended | confidence | as-written member | corrected member |
|---|---|---|---|---|---|---|
| Professional/kongzhi.py:579 | Each `recv(1024)` chunk is decoded as UTF-8 on its own, and a decode error disconnects (594-597). | The reply "EMG值: 1\n" arriving in two chunks cut after 0xE5, the first byte of 值. The first chunk does not decode. | The byte stream is decoded incrementally, carrying a cut character over to the next chunk, so TCP segmentation does not matter. | not executed | ControlLink.CutCharacter | ControlLink.CutCharacterCarried |
| Professional/caiji.py:1404-1408 | `save_num_channels` appends `num_channels=N\n` to the lines `readlines()` returned, and `writelines` joins them with nothing in between. A last line without a newline fuses with the appended line. | A config file holding only `y_top_main=1.5`, with no final newline, and a save of 4 channels: the file becomes `y_top_main=1.5num_channels=4\n`, and the count loads back as 1. | A last line without a newline gets one before a key line is appended, so every saved key reads back. | not executed | Config.UnterminatedLineLosesCount | Config.SavedChannelsLoad |
| Professional/caiji.py:1457-1463 | `save_yaxis_range` appends the missing key lines to the lines `readlines()` returned, and `writelines` joins them with nothing in between. A last line without a newline fuses with the first appended line. | A config file holding only `num_channels=4`, with no final newline, and a save of the main limits: the top-limit line is glued to `num_channels=4`, and `load_yaxis_range` returns the default top 1.5. | A last line without a newline gets one before key lines are appended. | not executed | Config.YTopLostAsWritten | Config.SavedYAxisLoads |
| Professional/caiji.py:1728-1738 | `save_experiment_params` appends the missing key lines in the same way. | The same file and any accepted experiment save: the `cycle_total=` line is glued to `num_channels=4`, and `load_experiment_params` returns the default count 10. | As above. | not executed | Config.CycleTotalLostAsWritten | Config.SavedExperimentLoads |
| Professional/caiji.py:1825-1831 | `save_connection_params` appends the missing key lines in the same way. | The same file and an accepted save of 10.0.0.1, port 8080: the file becomes `num_channels=4ip_address=10.0.0.1\nport_number=8080\n`, and `load_connection_params` returns the default address 192.168.31.22 with port 8080. | As above. | not executed | Config.IpLostAsWritten | Config.SavedConnectionLoads |

`ControlLink.CutCharacter` shows, for any text and any non-ASCII
character, that the pass as written (`ReceiveStrict`) fails on the cut
chunk. `ControlLink.CutCharacterCarried` and
`ControlLink.ChunkingInvisible` prove that the incremental pass
(`ReceiveStep`) reads the same lines under every cut.
`ControlLink.Controller` keeps both: `Receive` as written, and
`ReceiveIncremental`, whose results the lemmas above describe.

`Config.UnterminatedLineLosesCount` shows the fused line for any
one-line file without a final newline, and `Config.UnterminatedConfigExample`
for the input in the table. `save_yaxis_range` (1457-1463),
`save_experiment_params` (1728-1738) and `save_connection_params`
(1825-1831) append their missing keys the same way, and
`Config.SaveKeysTextAsWritten` models them as written.
`Config.UnterminatedLineLosesKey` shows, for any one-line file without a
final newline that carries none of the keys, that the first key line is
glued to that line and the first key has no line of its own.
`IpLostAsWritten`, `CycleTotalLostAsWritten` and `YTopLostAsWritten`
apply this to each saver. The model's saves apply `Config.Terminate`
first (`SaveNumChannels`, `SaveKeysText`). For these corrected saves,
`SavedChannelsLoad`, `SavedKeysLoad`, `SavedConnectionLoads`,
`SavedExperimentLoads` and `SavedYAxisLoads` prove the round trip on the
file text, whatever it held. `TerminatedTextUnchanged` shows that the
correction changes nothing for a file that ends with a newline, which is
every file these helpers wrote themselves.

## Left out

- Threads, locks, the GUI queue and `root.after` scheduling. Each of
  `receive_data`, `process_data_thread` and the callbacks is one
  sequential step. Timers are emitted as `Cycle.Timer` values and
  countdown ticks.
- `root.after(0, disconnect)` in the control receive loop: the model
  disconnects at once.
- Sockets, `connect`, `accept` and `listen` (`start_connection`,
  `stop_connection`): the connection is a flag, and the bytes received
  are a parameter.
- `time.time()`: the clock is a parameter, `clock(i)` being the time read
  for the `i`-th packet of a chunk, or while the `i`-th line of a receive
  pass is handled.
- float32 meaning (`struct.unpack('f')`) and floating-point rounding:
  - values are 32-bit words, bit-exact;
  - timestamps and durations are exact reals;
  - the EMG value parser (`float()`) is a parameter.
- `Config.CheckExperiment` takes the already-parsed numbers, because
  `float()` of text is not modelled.
- Config.LastMatch: `load_yaxis_range` (caiji.py:1428-1435) and
  `load_experiment_params` (caiji.py:1669-1681) end the whole read at the
  first value that `float()` or `int()` refuses, and keep what was read
  before it. `LastMatch` reads the last line of each key and does not
  model that stop, because `float()` of text is not modelled. The round
  trips (`SavedKeysLoad`, `SavedExperimentLoads`, `SavedYAxisLoads`) name
  the lines read back, not the numbers parsed from them.
  `Config.LoadConnection` and `Config.LoadNumChannels` do model their
  loaders' stop.
- Partial sends: `sendall` either delivers the whole line or raises. The
  `delivered` flag of `SendCommand`/`SendAll` is that outcome, one flag
  per call.
- `ControlLink.ReceiveStep` keeps an unfinished last sequence without
  checking its continuation bytes. A malformed sequence cut by the end
  of a chunk is therefore reported with the next chunk, not at once as
  Python's incremental decoder would.
- Text.ParseInt: reads ASCII digits 0-9 only. Python's `int()` also
  accepts every other Unicode decimal digit (and `re`'s `\d` in the
  address pattern matches them). So the model rejects such digits where
  the source accepts them in:
  - the channel count (`Config.CheckChannelCount`, caiji.py:557);
  - the port and the octets (`Config.CheckConnection`, caiji.py:1775-1795);
  - the training duration (`Countdown.Start`, kongzhi.py:227);
  - the config loaders (`Config.IntValue`, `Config.LoadNumChannels`,
    `Config.LoadConnection`).
- File I/O:
  - a data file is the list of its lines and a sync mark;
  - a config file is its text; `Config.ReadLines` and `Config.WriteLines`
    are `readlines` and `writelines`;
  - opening, writing, renaming and the rename dialog are outside the
    model.
- Value formatting: data rows are the samples themselves, because the
  `:.3f` text is not modelled. The countdown label is the seconds it
  shows (`Countdown.Clock` gives its text).
- Text-to-speech, the voice-timestamp list, the plot and legend widgets,
  the matplotlib EMG chart and the y-axis editing.
- Label and entry updates of the reply dispatch: a reply names the
  widget and the value. The "no threshold" error box is a notice.
- Replies: prefix-freeness of the chain is not stated in general. Three
  near-miss lemmas show that later prefixes are reachable despite
  earlier look-alikes: `ThresholdAppliedReachesItsBranch`,
  `CalibrationStartedReachesItsBranch` and `EmgReadingReachesItsBranch`.
- `Acquisition.NetworkDebugger.ReceiveChunk`: the `ConnectionResetError`
  and other exception exits of the loop are not modelled.
