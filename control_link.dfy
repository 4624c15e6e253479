/** The text control channel of `WiFiHardwareController`
    (Professional/kongzhi.py): commands go out as UTF-8 lines
    (`send_command`, 495-507); replies come in on a receive loop that
    decodes every chunk, cuts the text into lines and hands each line to
    the reply dispatch (574-597); EMG readings are kept in a history of at
    most 100 points (670-677); the training buttons drive the countdown
    and send its commands (218-276). */
module ControlLink {
  import opened Common
  import opened Text
  import opened Utf8
  import opened Replies
  import opened Countdown

  // ---------------------------------------------------------------------
  // Line framing

  /** The lines a buffer holds and what is left after the last newline. */
  datatype Framed = Framed(lines: seq<string>, rest: string)

  /** A line as the dispatch receives it: non-empty, without a newline,
      and stripped, that is, neither starting nor ending with a space, so
      that it is its own `strip()` (`StripUnpadded`). */
  predicate IsLine(l: string) {
    l != [] && Unpadded(l) && '\n' !in l
  }

  /** The pieces of `pieces` that are not blank, stripped, in order. */
  function Kept(pieces: seq<string>): (r: seq<string>)
    ensures forall i :: 0 <= i < |r| ==> r[i] != [] && Unpadded(r[i])
    decreases |pieces|
  {
    if pieces == [] then []
    else
      var line := Strip(pieces[0]);
      var rest := Kept(pieces[1..]);
      if line == [] then rest else [line] + rest
  }

  /** Stripping only removes characters, so pieces without `c` keep
      none. */
  lemma {:induction false} KeptAvoids(pieces: seq<string>, c: char)
    requires forall i :: 0 <= i < |pieces| ==> c !in pieces[i]
    ensures forall i :: 0 <= i < |Kept(pieces)| ==> c !in Kept(pieces)[i]
    decreases |pieces|
  {
    if pieces != [] {
      KeptAvoids(pieces[1..], c);
    }
  }

  /** What the `while '\n' in buffer` loop of `receive_data` passes on
      and leaves: every piece of `buffer.split('\n')` but the last is
      stripped and passed on unless blank, and the last piece stays in
      the buffer. */
  function Frame(buffer: string): (f: Framed)
    ensures '\n' !in f.rest
    ensures forall i :: 0 <= i < |f.lines| ==> IsLine(f.lines[i])
  {
    var parts := Split(buffer, '\n');
    KeptAvoids(parts[..|parts| - 1], '\n');
    Framed(Kept(parts[..|parts| - 1]), parts[|parts| - 1])
  }

  /** A buffer without a newline yields no line and stays as it is. */
  lemma FrameDone(buffer: string)
    requires '\n' !in buffer
    ensures Frame(buffer) == Framed([], buffer)
  {
    SplitAbsent(buffer, '\n');
  }

  /** One pass of the loop: a buffer with a newline yields the stripped
      piece before it, unless blank, and then what the piece after it
      yields. */
  lemma FrameStep(head: string, tail: string)
    requires '\n' !in head
    ensures Frame(head + "\n" + tail) ==
      if Strip(head) == [] then Frame(tail)
      else Framed([Strip(head)] + Frame(tail).lines, Frame(tail).rest)
  {
    SplitAfter(head, '\n', tail);
    var more := Split(tail, '\n');
    var parts := [head] + more;
    var front := more[..|more| - 1];
    assert parts[..|parts| - 1] == [head] + front;
    assert ([head] + front)[1..] == front;
  }

  /** Framing does not depend on how the text was cut into chunks: what
      the first part yields, followed by what its leftover yields with the
      second part behind it, is what the whole yields. */
  lemma {:induction false} FrameAppend(a: string, b: string)
    ensures Frame(a + b) == Framed(Frame(a).lines + Frame(Frame(a).rest + b).lines, Frame(Frame(a).rest + b).rest)
    decreases |a|
  {
    if '\n' !in a {
      FrameDone(a);
    } else {
      CutAtFirst(a, '\n');
      var i := Find(a, "\n");
      var head, tail := a[..i], a[i + 1..];
      FrameAppend(tail, b);
      FrameAppendStep(head, tail, b);
    }
  }

  /** The step of `FrameAppend` past the first newline. */
  lemma FrameAppendStep(head: string, tail: string, b: string)
    requires '\n' !in head
    requires Frame(tail + b) == Framed(Frame(tail).lines + Frame(Frame(tail).rest + b).lines, Frame(Frame(tail).rest + b).rest)
    ensures var a := head + "\n" + tail;
      Frame(a + b) == Framed(Frame(a).lines + Frame(Frame(a).rest + b).lines, Frame(Frame(a).rest + b).rest)
  {
    assert head + "\n" + tail + b == head + "\n" + (tail + b);
    FrameStep(head, tail);
    FrameStep(head, tail + b);
    if Strip(head) != [] {
      AppendAssoc([Strip(head)], Frame(tail).lines, Frame(Frame(tail).rest + b).lines);
    }
  }

  /** The framing loop run on `buffer`: the lines it passes on, in order,
      and the buffer it leaves. */
  method FrameLines(buffer: string) returns (lines: seq<string>, rest: string)
    ensures Framed(lines, rest) == Frame(buffer)
  {
    lines, rest := [], buffer;
    while '\n' in rest
      invariant Frame(buffer) == Framed(lines + Frame(rest).lines, Frame(rest).rest)
      decreases |rest|
    {
      CutAtFirst(rest, '\n');
      var i := Find(rest, "\n");
      var head, tail := rest[..i], rest[i + 1..];
      FrameStep(head, tail);
      var line := Strip(head);
      if line != [] {
        AppendAssoc(lines, [line], Frame(tail).lines);
        lines := lines + [line];
      }
      rest := tail;
    }
    FrameDone(rest);
    assert lines + [] == lines;
  }

  // ---------------------------------------------------------------------
  // Commands

  /** The text of commands sent one after the other, each followed by a
      newline. */
  function Outgoing(commands: seq<string>): string
    decreases |commands|
  {
    if commands == [] then []
    else Outgoing(commands[..|commands| - 1]) + commands[|commands| - 1] + "\n"
  }

  lemma OutgoingAppend(commands: seq<string>, c: string)
    ensures Outgoing(commands + [c]) == Outgoing(commands) + c + "\n"
  {
    assert (commands + [c])[..|commands|] == commands;
  }

  /** A receiver that frames lines as the controller does reads back
      exactly the commands sent, provided each is a line of its own: the
      bytes decode to the text sent, and the text frames into the
      commands with nothing left over. */
  lemma CommandsReadBack(commands: seq<string>)
    requires forall k :: 0 <= k < |commands| ==> IsLine(commands[k])
    ensures Decode(Encode(Outgoing(commands))) == Some(Outgoing(commands))
    ensures Frame(Outgoing(commands)) == Framed(commands, [])
  {
    DecodeEncode(Outgoing(commands));
    CommandsFrame(commands);
  }

  lemma {:induction false} CommandsFrame(commands: seq<string>)
    requires forall k :: 0 <= k < |commands| ==> IsLine(commands[k])
    ensures Frame(Outgoing(commands)) == Framed(commands, [])
    decreases |commands|
  {
    if commands == [] {
      FrameDone([]);
    } else {
      var init, c := commands[..|commands| - 1], commands[|commands| - 1];
      CommandsFrame(init);
      assert Outgoing(commands) == Outgoing(init) + (c + "\n");
      FrameAppend(Outgoing(init), c + "\n");
      LineFrames(c);
      assert [] + (c + "\n") == c + "\n";
      InitLast(commands);
    }
  }

  lemma InitLast<T>(s: seq<T>)
    requires s != []
    ensures s[..|s| - 1] + [s[|s| - 1]] == s
  {
  }

  /** A line followed by its newline frames to that line alone. */
  lemma LineFrames(c: string)
    requires IsLine(c)
    ensures Frame(c + "\n") == Framed([c], [])
  {
    assert c + "\n" == c + "\n" + [];
    FrameStep(c, []);
    FrameDone([]);
    StripUnpadded(c);
    assert [c] + [] == [c];
  }

  /** What `send_command` did. */
  datatype SendResult = NotConnected | Sent | SendFailed

  // ---------------------------------------------------------------------
  // Receiving

  /** One pass of the receive loop: the connection closed, the chunk
      failed to decode, or the lines it completed, the buffer left and the
      undecoded bytes carried to the next chunk. */
  datatype Received = Closed | Failed | Lines(lines: seq<string>, buffer: string, pending: seq<byte>)

  /** `data = recv(1024).decode('utf-8')` and the framing after it, as
      written: a chunk that does not decode on its own, including one
      that ends inside a character, is an error and ends the connection. */
  function ReceiveStrict(buffer: string, chunk: seq<byte>): (r: Received)
    ensures r.Lines? ==> r.pending == []
  {
    match Decode(chunk)
    case None => Failed
    case Some(text) =>
      if text == [] then Closed
      else
        var f := Frame(buffer + text);
        Lines(f.lines, f.rest, [])
  }

  /** The receive pass with an incremental decoder: the bytes of a
      character that a chunk ends inside of are kept and decoded with the
      next chunk. Only an empty chunk closes the connection. */
  function ReceiveStep(pending: seq<byte>, buffer: string, chunk: seq<byte>): (r: Received)
    ensures r.Lines? ==> |r.pending| < 4
  {
    if chunk == [] then Closed
    else match DecodePrefix(pending + chunk)
      case None => Failed
      case Some(p) =>
        var f := Frame(buffer + p.text);
        Lines(f.lines, f.rest, p.tail)
  }

  /** A further chunk after a pass that yielded lines. */
  function Then(r: Received, chunk: seq<byte>): Received {
    match r
    case Lines(lines, buffer, pending) =>
      (match ReceiveStep(pending, buffer, chunk)
       case Lines(more, buffer', pending') => Lines(lines + more, buffer', pending')
       case other => other)
    case other => other
  }

  /** With the incremental decoder, where TCP cuts the stream does not
      matter: two chunks yield the lines, buffer and carried bytes that
      their concatenation yields in one. */
  lemma ChunkingInvisible(pending: seq<byte>, buffer: string, a: seq<byte>, b: seq<byte>)
    requires a != [] && b != []
    ensures Then(ReceiveStep(pending, buffer, a), b) == ReceiveStep(pending, buffer, a + b)
  {
    DecodePrefixAppend(pending + a, b);
    AppendAssoc(pending, a, b);
    var first := DecodePrefix(pending + a);
    if first.Some? {
      var p := first.value;
      var f1 := Frame(buffer + p.text);
      assert ReceiveStep(pending, buffer, a) == Lines(f1.lines, f1.rest, p.tail);
      var second := DecodePrefix(p.tail + b);
      if second.Some? {
        var q := second.value;
        var f2 := Frame(f1.rest + q.text);
        assert ReceiveStep(p.tail, f1.rest, b) == Lines(f2.lines, f2.rest, q.tail);
        assert DecodePrefix(pending + (a + b)) == Some(Partial(p.text + q.text, q.tail));
        FrameAppend(buffer + p.text, q.text);
        AppendAssoc(buffer, p.text, q.text);
        assert Frame(buffer + (p.text + q.text)) == Framed(f1.lines + f2.lines, f2.rest);
      }
    }
  }

  /** Where a chunk holds only whole characters, the incremental receiver
      does what the one as written does. */
  lemma StepAgreesOnWholeCharacters(buffer: string, chunk: seq<byte>)
    requires chunk != [] && Decode(chunk).Some?
    ensures ReceiveStep([], buffer, chunk) == ReceiveStrict(buffer, chunk)
  {
    assert [] + chunk == chunk;
    DecodedNonEmpty(chunk);
  }

  /** A chunk that the sender's text fills with whole characters is
      decoded and framed on its own by the receiver as written. */
  lemma WholeChunkFrames(buffer: string, text: string)
    requires text != []
    ensures ReceiveStrict(buffer, Encode(text)) ==
      Lines(Frame(buffer + text).lines, Frame(buffer + text).rest, [])
  {
    DecodeEncode(text);
  }

  /** A chunk that ends inside a character of two bytes or more, as
      when the `\U{503c}` of an EMG reading is cut after its first byte.
      As written, the chunk fails to decode and the connection is
      dropped, although the text sent is well formed; the incremental
      receiver frames the text before the character and keeps the cut
      byte for the next chunk. */
  lemma CutCharacter(buffer: string, s: string, c: char)
    requires c as int >= 0x80
    ensures ReceiveStrict(buffer, Encode(s) + EncodeChar(c)[..1]) == Failed
    ensures ReceiveStep([], buffer, Encode(s) + EncodeChar(c)[..1]) ==
      Lines(Frame(buffer + s).lines, Frame(buffer + s).rest, EncodeChar(c)[..1])
  {
    var x := EncodeChar(c)[..1];
    DecodeEncode(s);
    DecodePrefixAppend(Encode(s), x);
    assert [] + x == x && s + [] == s;
    assert DecodePrefix(x) == Some(Partial([], x));
    assert [] + (Encode(s) + x) == Encode(s) + x;
  }

  /** With the incremental receiver, the rest of the character and the
      text after it complete what the whole stream would have given. */
  lemma CutCharacterCarried(buffer: string, s: string, c: char, t: string)
    requires c as int >= 0x80
    ensures Then(ReceiveStep([], buffer, Encode(s) + EncodeChar(c)[..1]), EncodeChar(c)[1..] + Encode(t))
      == ReceiveStep([], buffer, Encode(s + [c] + t))
  {
    var e := EncodeChar(c);
    ChunkingInvisible([], buffer, Encode(s) + e[..1], e[1..] + Encode(t));
    CutBytesJoin(s, c, t);
  }

  /** The two chunks of `CutCharacterCarried` are the bytes of the whole
      text. */
  lemma CutBytesJoin(s: string, c: char, t: string)
    ensures (Encode(s) + EncodeChar(c)[..1]) + (EncodeChar(c)[1..] + Encode(t)) == Encode(s + [c] + t)
  {
    EncodeAppend(s, [c] + t);
    EncodeAppend([c], t);
    EncodeOne(c);
    assert s + ([c] + t) == s + [c] + t;
    CutJoin(Encode(s), EncodeChar(c), Encode(t));
  }

  lemma EncodeOne(c: char)
    ensures Encode([c]) == EncodeChar(c)
  {
    assert [c][1..] == [];
  }

  lemma CutJoin<T>(a: seq<T>, e: seq<T>, b: seq<T>)
    requires |e| >= 1
    ensures (a + e[..1]) + (e[1..] + b) == a + (e + b)
  {
    assert e[..1] + e[1..] == e;
  }

  // ---------------------------------------------------------------------
  // EMG history

  /** `max_data_points`. */
  const MaxDataPoints: nat := 100

  /** `emg_data` and `emg_time`. */
  class EmgHistory {
    var values: seq<real>
    var times: seq<real>

    ghost predicate Valid()
      reads this
    {
      |values| == |times| <= MaxDataPoints
    }

    constructor()
      ensures Valid() && values == [] && times == []
    {
      values, times := [], [];
    }

    /** Appending a reading: both lists grow together, and past 100
        entries the oldest of each is popped. */
    method Record(v: real, t: real)
      requires Valid()
      modifies this
      ensures Valid()
      ensures values == Latest(old(values) + [v], MaxDataPoints)
      ensures times == Latest(old(times) + [t], MaxDataPoints)
    {
      values := values + [v];
      times := times + [t];
      if |values| > MaxDataPoints {
        values := values[1..];
        times := times[1..];
      }
    }
  }

  /** The value a reply adds to the history: that of an EMG reading
      whose text `parse`, standing for `float()`, accepts. */
  function EmgValue(reply: Reply, parse: string -> Option<real>): Option<real> {
    match reply
    case EmgReading(Some(text), _) => parse(text)
    case _ => None
  }

  /** What one reply adds to the history: its value, if it has one. */
  function Added(reply: Reply, parse: string -> Option<real>): (vs: seq<real>)
    ensures |vs| <= 1
  {
    match EmgValue(reply, parse)
    case Some(v) => [v]
    case None => []
  }

  /** The values a run of replies adds to the history, in order. */
  function Recorded(replies: seq<Reply>, parse: string -> Option<real>): (vs: seq<real>)
    ensures |vs| <= |replies|
    decreases |replies|
  {
    if replies == [] then []
    else Recorded(replies[..|replies| - 1], parse) + Added(replies[|replies| - 1], parse)
  }

  /** One more reply. */
  lemma RecordedAppend(replies: seq<Reply>, r: Reply, parse: string -> Option<real>)
    ensures Recorded(replies + [r], parse) == Recorded(replies, parse) + Added(r, parse)
  {
    assert (replies + [r])[..|replies|] == replies;
  }

  /** The time one reply adds to the history: `t`, the `time.time()`
      read while it is handled, exactly when it adds a value. */
  function AddedTime(reply: Reply, parse: string -> Option<real>, t: real): (ts: seq<real>)
    ensures |ts| == |Added(reply, parse)|
  {
    if EmgValue(reply, parse).Some? then [t] else []
  }

  /** The times a run of replies adds to the history, in order: reply `k`
      is handled at `clock(k)`. One time per value recorded. */
  function RecordedTimes(replies: seq<Reply>, parse: string -> Option<real>, clock: nat -> real): (ts: seq<real>)
    ensures |ts| == |Recorded(replies, parse)|
    decreases |replies|
  {
    if replies == [] then []
    else
      var k := |replies| - 1;
      RecordedTimes(replies[..k], parse, clock) + AddedTime(replies[k], parse, clock(k))
  }

  /** One more reply, handled at `clock(|replies|)`. */
  lemma RecordedTimesAppend(replies: seq<Reply>, r: Reply, parse: string -> Option<real>, clock: nat -> real)
    ensures RecordedTimes(replies + [r], parse, clock)
      == RecordedTimes(replies, parse, clock) + AddedTime(r, parse, clock(|replies|))
  {
    assert (replies + [r])[..|replies|] == replies;
  }

  /** Reading `i` of a run is the value of some reply `k` at or after
      position `i`, and its time is `clock(k)`: every value is paired
      with the time its own line was handled. */
  lemma {:induction false} RecordedPaired(replies: seq<Reply>, parse: string -> Option<real>, clock: nat -> real, i: nat)
    requires i < |Recorded(replies, parse)|
    ensures exists k :: (i <= k < |replies| && EmgValue(replies[k], parse) == Some(Recorded(replies, parse)[i])
                         && RecordedTimes(replies, parse, clock)[i] == clock(k))
    decreases |replies|
  {
    var n := |replies| - 1;
    var front := replies[..n];
    var vs, ts := Recorded(front, parse), RecordedTimes(front, parse, clock);
    if i < |vs| {
      RecordedPaired(front, parse, clock, i);
      var k :| i <= k < |front| && EmgValue(front[k], parse) == Some(vs[i]) && ts[i] == clock(k);
      assert replies[k] == front[k];
    } else {
      assert i == |vs| && EmgValue(replies[n], parse).Some?;
    }
  }

  /** The readings the two lists hold, each value with its time. */
  function Zip(vs: seq<real>, ts: seq<real>): (ps: seq<(real, real)>)
    requires |vs| == |ts|
    ensures |ps| == |vs| && forall i :: 0 <= i < |vs| ==> ps[i] == (vs[i], ts[i])
  {
    seq(|vs|, i requires 0 <= i < |vs| => (vs[i], ts[i]))
  }

  /** Trimming the two lists side by side keeps them paired: together
      they hold the latest 100 readings, each value with its own time. */
  lemma HistoryStaysPaired(vs: seq<real>, ts: seq<real>, v: real, t: real)
    requires |vs| == |ts|
    ensures |Latest(vs + [v], MaxDataPoints)| == |Latest(ts + [t], MaxDataPoints)|
    ensures Zip(Latest(vs + [v], MaxDataPoints), Latest(ts + [t], MaxDataPoints))
      == Latest(Zip(vs, ts) + [(v, t)], MaxDataPoints)
  {
    ZipLatest(vs + [v], ts + [t], MaxDataPoints);
    assert Zip(vs + [v], ts + [t]) == Zip(vs, ts) + [(v, t)];
  }

  /** Trimming two lists of the same length alike keeps them paired. */
  lemma ZipLatest(xs: seq<real>, ys: seq<real>, n: nat)
    requires |xs| == |ys|
    ensures |Latest(xs, n)| == |Latest(ys, n)|
    ensures Zip(Latest(xs, n), Latest(ys, n)) == Latest(Zip(xs, ys), n)
  {
    var xs', ys', all := Latest(xs, n), Latest(ys, n), Zip(xs, ys);
    var d := |xs| - |xs'|;
    forall i | 0 <= i < |xs'|
      ensures Zip(xs', ys')[i] == Latest(all, n)[i]
    {
      assert xs'[i] == xs[d + i] && ys'[i] == ys[d + i];
    }
  }

  /** Trimming to the latest `n` after every step, where a step adds at
      most one element, is trimming once at the end. */
  lemma LatestThen<T>(w: seq<T>, xs: seq<T>, ys: seq<T>, n: nat)
    requires |ys| <= 1
    ensures Latest(Latest(w + xs, n) + ys, n) == Latest(w + (xs + ys), n)
  {
    if ys == [] {
      assert Latest(w + xs, n) + ys == Latest(w + xs, n);
      assert xs + ys == xs;
    } else {
      assert ys == [ys[0]];
      LatestStep(w, xs, ys[0], n);
    }
  }

  /** What the history holds after one more reply, in terms of all the
      replies so far. */
  lemma HistoryStep(v0: seq<real>, t0: seq<real>, replies: seq<Reply>, reply: Reply,
                    parse: string -> Option<real>, clock: nat -> real)
    ensures Latest(Latest(v0 + Recorded(replies, parse), MaxDataPoints) + Added(reply, parse), MaxDataPoints)
      == Latest(v0 + Recorded(replies + [reply], parse), MaxDataPoints)
    ensures Latest(Latest(t0 + RecordedTimes(replies, parse, clock), MaxDataPoints)
                   + AddedTime(reply, parse, clock(|replies|)), MaxDataPoints)
      == Latest(t0 + RecordedTimes(replies + [reply], parse, clock), MaxDataPoints)
  {
    RecordedAppend(replies, reply, parse);
    RecordedTimesAppend(replies, reply, parse, clock);
    var done, more := Recorded(replies, parse), Added(reply, parse);
    LatestThen(v0, done, more, MaxDataPoints);
    LatestThen(t0, RecordedTimes(replies, parse, clock), AddedTime(reply, parse, clock(|replies|)), MaxDataPoints);
  }

  /** The EMG branch of `process_received_data` for one reply: a value
      that `float()` accepts is recorded with the time `t` read then. */
  method RecordReply(history: EmgHistory, reply: Reply, parse: string -> Option<real>, t: real)
    requires history.Valid()
    modifies history
    ensures history.Valid()
    ensures history.values == Latest(old(history.values) + Added(reply, parse), MaxDataPoints)
    ensures history.times == Latest(old(history.times) + AddedTime(reply, parse, t), MaxDataPoints)
  {
    match EmgValue(reply, parse)
    case Some(v) =>
      history.Record(v, t);
    case None =>
      assert history.values + [] == history.values;
      assert history.times + [] == history.times;
  }

  /** The dispatch of every line a receive pass completed, in order: the
      reply of each, and every EMG value `parse` accepts recorded with
      the time `clock(k)` at which its line `k` is handled. */
  method HandleLines(history: EmgHistory, lines: seq<string>, classify: string -> Reply,
                     parse: string -> Option<real>, clock: nat -> real)
      returns (replies: seq<Reply>)
    requires history.Valid()
    modifies history
    ensures history.Valid()
    ensures |replies| == |lines| && forall k :: 0 <= k < |lines| ==> replies[k] == classify(lines[k])
    ensures history.values == Latest(old(history.values) + Recorded(replies, parse), MaxDataPoints)
    ensures history.times == Latest(old(history.times) + RecordedTimes(replies, parse, clock), MaxDataPoints)
  {
    ghost var v0, t0 := history.values, history.times;
    replies := [];
    assert v0 + [] == v0 && t0 + [] == t0;
    var i := 0;
    while i < |lines|
      invariant 0 <= i <= |lines| && history.Valid()
      invariant |replies| == i && forall k :: 0 <= k < i ==> replies[k] == classify(lines[k])
      invariant history.values == Latest(v0 + Recorded(replies, parse), MaxDataPoints)
      invariant history.times == Latest(t0 + RecordedTimes(replies, parse, clock), MaxDataPoints)
    {
      var reply := classify(lines[i]);
      RecordReply(history, reply, parse, clock(i));
      HistoryStep(v0, t0, replies, reply, parse, clock);
      replies := replies + [reply];
      i := i + 1;
    }
  }

  /** The decoding and the framing loop of one pass of `receive_data`, as
      written. */
  method DecodeAndFrame(buffer: string, chunk: seq<byte>) returns (r: Received)
    ensures r == ReceiveStrict(buffer, chunk)
  {
    match Decode(chunk)
    case None =>
      r := Failed;
    case Some(text) =>
      if text == [] {
        r := Closed;
      } else {
        var lines, rest := FrameLines(buffer + text);
        r := Lines(lines, rest, []);
      }
  }

  /** The same with an incremental decoder. */
  method DecodeAndFrameIncremental(pending: seq<byte>, buffer: string, chunk: seq<byte>) returns (r: Received)
    ensures r == ReceiveStep(pending, buffer, chunk)
  {
    if chunk == [] {
      return Closed;
    }
    match DecodePrefix(pending + chunk)
    case None =>
      r := Failed;
    case Some(p) =>
      var lines, rest := FrameLines(buffer + p.text);
      r := Lines(lines, rest, p.tail);
  }

  // ---------------------------------------------------------------------
  // The controller

  class Controller {
    var connected: bool
    /** The receive loop's `buffer`. */
    var buffer: string
    /** Bytes of a character a chunk ended inside of, carried by the
        incremental receiver. */
    var pending: seq<byte>
    /** The commands written to the socket, in order. */
    var sent: seq<string>
    /** `emg_data` and `emg_time`. */
    const history: EmgHistory
    /** `remaining_time`, `countdown_running` and `countdown_after_id`. */
    const countdown: CountdownTimer

    ghost predicate Valid()
      reads this, history
    {
      history.Valid()
    }

    /** The bytes those commands put on the socket. */
    function Wire(): seq<byte>
      reads this
    {
      Encode(Outgoing(sent))
    }

    constructor()
      ensures Valid() && !connected && buffer == [] && pending == [] && sent == []
      ensures history.values == [] && history.times == [] && countdown.Current() == Initial
    {
      connected, buffer, pending, sent := false, [], [], [];
      history := new EmgHistory();
      countdown := new CountdownTimer();
    }

    /** A connection established: a fresh receive loop starts with an
        empty buffer. */
    method Connected()
      requires Valid()
      modifies this
      ensures Valid() && connected && buffer == [] && pending == []
      ensures sent == old(sent)
    {
      connected, buffer, pending := true, [], [];
    }

    /** `disconnect`. */
    method Disconnect()
      requires Valid()
      modifies this
      ensures Valid() && !connected
      ensures buffer == old(buffer) && pending == old(pending) && sent == old(sent)
    {
      connected := false;
    }

    /** `send_command(command)`, where `delivered` says whether the socket
        took the bytes. Nothing is sent while disconnected; otherwise
        exactly `command + "\n"` goes out as UTF-8, and a failed send
        disconnects. */
    method SendCommand(command: string, delivered: bool) returns (r: SendResult)
      requires Valid()
      modifies this
      ensures Valid()
      ensures r == (if !old(connected) then NotConnected else if delivered then Sent else SendFailed)
      ensures connected == (old(connected) && delivered)
      ensures r == Sent ==> sent == old(sent) + [command] && Wire() == old(Wire()) + Encode(command + "\n")
      ensures r != Sent ==> sent == old(sent)
      ensures buffer == old(buffer) && pending == old(pending)
    {
      if !connected {
        return NotConnected;
      }
      if delivered {
        OutgoingAppend(sent, command);
        EncodeAppend(Outgoing(sent), command + "\n");
        AppendAssoc(Outgoing(sent), command, "\n");
        sent := sent + [command];
        r := Sent;
      } else {
        connected := false;
        r := SendFailed;
      }
    }

    /** The `send_command` calls of one countdown step, in order. */
    method SendAll(cmds: seq<string>, delivered: bool)
      requires Valid()
      modifies this
      ensures Valid()
      ensures old(connected) && delivered ==> connected && sent == old(sent) + cmds
      ensures !(old(connected) && delivered) ==>
        sent == old(sent) && connected == (old(connected) && cmds == [])
      ensures connected == (old(connected) && (delivered || cmds == []))
      ensures buffer == old(buffer) && pending == old(pending)
    {
      ghost var c0 := sent;
      var i := 0;
      while i < |cmds|
        invariant 0 <= i <= |cmds| && Valid()
        invariant old(connected) && delivered ==> connected && sent == c0 + cmds[..i]
        invariant !(old(connected) && delivered) ==>
          sent == c0 && connected == (old(connected) && i == 0)
        invariant buffer == old(buffer) && pending == old(pending)
      {
        var r := SendCommand(cmds[i], delivered);
        assert cmds[..i + 1] == cmds[..i] + [cmds[i]];
        i := i + 1;
      }
      assert cmds[..|cmds|] == cmds;
    }

    /** `start_training` with the text of the duration entry. */
    method StartTraining(durationText: string, delivered: bool) returns (e: Effects)
      requires Valid()
      modifies this, countdown
      ensures Valid()
      ensures (countdown.Current(), e) == Start(old(countdown.Current()), durationText)
      ensures old(connected) && delivered ==> sent == old(sent) + e.sent
      ensures !(old(connected) && delivered) ==> sent == old(sent)
      ensures connected == (old(connected) && (delivered || e.sent == []))
      ensures buffer == old(buffer) && pending == old(pending)
    {
      e := countdown.StartTraining(durationText);
      SendAll(e.sent, delivered);
    }

    /** `resume_training`. */
    method ResumeTraining(delivered: bool) returns (e: Effects)
      requires Valid()
      modifies this, countdown
      ensures Valid()
      ensures (countdown.Current(), e) == Resume(old(countdown.Current()))
      ensures old(connected) && delivered ==> sent == old(sent) + e.sent
      ensures !(old(connected) && delivered) ==> sent == old(sent)
      ensures connected == (old(connected) && (delivered || e.sent == []))
      ensures buffer == old(buffer) && pending == old(pending)
    {
      e := countdown.ResumeTraining();
      SendAll(e.sent, delivered);
    }

    /** `pause_training`. */
    method PauseTraining(delivered: bool) returns (e: Effects)
      requires Valid()
      modifies this, countdown
      ensures Valid()
      ensures (countdown.Current(), e) == Pause(old(countdown.Current()))
      ensures old(connected) && delivered ==> sent == old(sent) + ["pause"]
      ensures !(old(connected) && delivered) ==> sent == old(sent)
      ensures connected == (old(connected) && (delivered || e.sent == []))
      ensures buffer == old(buffer) && pending == old(pending)
    {
      e := countdown.PauseTraining();
      SendAll(e.sent, delivered);
    }

    /** `update_countdown`, when the waiting tick fires. */
    method UpdateCountdown(delivered: bool) returns (e: Effects)
      requires Valid()
      modifies this, countdown
      ensures Valid()
      ensures (countdown.Current(), e) == Tick(old(countdown.Current()))
      ensures old(connected) && delivered ==> sent == old(sent) + e.sent
      ensures !(old(connected) && delivered) ==> sent == old(sent)
      ensures connected == (old(connected) && (delivered || e.sent == []))
      ensures buffer == old(buffer) && pending == old(pending)
    {
      e := countdown.UpdateCountdown();
      SendAll(e.sent, delivered);
    }

    /** One pass of `receive_data` as written: the chunk is decoded on its
        own, the completed lines are dispatched in order, and a chunk
        that closes the connection or fails to decode disconnects.
        `parse` stands for `float()`, and `clock(k)` for the `time.time()`
        read while line `k` is handled. */
    method Receive(chunk: seq<byte>, parse: string -> Option<real>, clock: nat -> real)
        returns (r: Received, replies: seq<Reply>)
      requires Valid() && connected
      modifies this, history
      ensures Valid()
      ensures r == ReceiveStrict(old(buffer), chunk)
      ensures r.Lines? ==> connected && buffer == r.buffer
      ensures r.Lines? ==> |replies| == |r.lines| && forall k :: 0 <= k < |r.lines| ==> replies[k] == Classify(r.lines[k])
      ensures r.Lines? ==>
        history.values == Latest(old(history.values) + Recorded(replies, parse), MaxDataPoints)
      ensures r.Lines? ==>
        history.times == Latest(old(history.times) + RecordedTimes(replies, parse, clock), MaxDataPoints)
      ensures !r.Lines? ==> !connected && replies == []
      ensures !r.Lines? ==> history.values == old(history.values) && history.times == old(history.times)
      ensures sent == old(sent) && pending == old(pending)
    {
      r := DecodeAndFrame(buffer, chunk);
      if r.Lines? {
        buffer := r.buffer;
        replies := HandleLines(history, r.lines, Classify, parse, clock);
      } else {
        connected, replies := false, [];
      }
    }

    /** The same pass with an incremental decoder: the bytes of a
        character cut off by the end of the chunk wait for the next
        one. */
    method ReceiveIncremental(chunk: seq<byte>, parse: string -> Option<real>, clock: nat -> real)
        returns (r: Received, replies: seq<Reply>)
      requires Valid() && connected
      modifies this, history
      ensures Valid()
      ensures r == ReceiveStep(old(pending), old(buffer), chunk)
      ensures r.Lines? ==> connected && buffer == r.buffer && pending == r.pending
      ensures r.Lines? ==> |replies| == |r.lines| && forall k :: 0 <= k < |r.lines| ==> replies[k] == Classify(r.lines[k])
      ensures r.Lines? ==>
        history.values == Latest(old(history.values) + Recorded(replies, parse), MaxDataPoints)
      ensures r.Lines? ==>
        history.times == Latest(old(history.times) + RecordedTimes(replies, parse, clock), MaxDataPoints)
      ensures !r.Lines? ==> !connected && replies == []
      ensures !r.Lines? ==> history.values == old(history.values) && history.times == old(history.times)
      ensures sent == old(sent)
    {
      r := DecodeAndFrameIncremental(pending, buffer, chunk);
      if r.Lines? {
        buffer, pending := r.buffer, r.pending;
        replies := HandleLines(history, r.lines, Classify, parse, clock);
      } else {
        connected, replies := false, [];
      }
    }
  }
}
