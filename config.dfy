/** The settings side of `NetworkDebugger`: the channel-count check of
    `change_channel_count` (Professional/caiji.py:551-560), the checks of
    `save_connection_params` and `save_experiment_params`
    (Professional/caiji.py:1683-1700, 1766-1801), and the rewriting of the
    `key=value` lines of the configuration file by the `save_*` helpers
    (Professional/caiji.py:1385-1408, 1434-1461, 1706-1730, 1809-1825),
    with the loaders that read those lines back. A configuration file is
    its text; `f.readlines()` cuts it after every newline, so every line
    but the last ends with one, and `f.writelines` joins the lines back
    with nothing added. */
module Config {
  import opened Common
  import opened Text
  import opened Wire
  import Cycle

  // ---------------------------------------------------------------------
  // Channel count

  /** How `change_channel_count` ends: refused while a device is connected,
      rejected (a ValueError: not an integer, or outside 1..16), or done. */
  datatype ChannelChange = RefusedWhileConnected | NotAChannelCount | Changed(channels: nat)

  /** `int(text)` succeeds with a count in 1..16. */
  predicate ChannelCountText(text: string) {
    ParseInt(text).Some? && MinChannels <= ParseInt(text).value <= MaxChannels
  }

  function CheckChannelCount(connected: bool, text: string): (r: ChannelChange)
    ensures r.Changed? <==> !connected && ChannelCountText(text)
    ensures r.Changed? ==> Some(r.channels as int) == ParseInt(text) && MinChannels <= r.channels <= MaxChannels
    ensures connected ==> r == RefusedWhileConnected
  {
    if connected then RefusedWhileConnected
    else match ParseInt(text)
      case None => NotAChannelCount
      case Some(n) => if n < MinChannels || n > MaxChannels then NotAChannelCount else Changed(n)
  }

  /** Every channel count the spin box can show is accepted while
      disconnected, and the packet size derived from it gives it back. */
  lemma ChannelCountAccepted(n: nat)
    requires MinChannels <= n <= MaxChannels
    ensures CheckChannelCount(false, NatToString(n)) == Changed(n)
    ensures ChannelsOf(PacketSize(n)) == n
  {
    ParseNatToString(n);
    PacketSizeDeterminesChannels(n);
  }

  // ---------------------------------------------------------------------
  // The file as text

  /** A line as `readlines()` gives it: not empty, with a newline, if
      any, only at its end. */
  predicate LineShaped(line: string) {
    |line| > 0 && forall i :: 0 <= i < |line| - 1 ==> line[i] != '\n'
  }

  predicate Terminated(line: string) {
    |line| > 0 && line[|line| - 1] == '\n'
  }

  /** The shape of what `readlines()` returns: every line shaped, and
      every line but the last terminated. */
  predicate FileLines(lines: seq<string>) {
    && (forall i :: 0 <= i < |lines| ==> LineShaped(lines[i]))
    && (forall i :: 0 <= i < |lines| - 1 ==> Terminated(lines[i]))
  }

  /** Lines every one of which is shaped and terminated. */
  predicate AllTerminated(lines: seq<string>) {
    forall i :: 0 <= i < |lines| ==> LineShaped(lines[i]) && Terminated(lines[i])
  }

  /** `f.writelines(lines)`: the lines one after the other. */
  function WriteLines(lines: seq<string>): string
    decreases |lines|
  {
    if lines == [] then [] else lines[0] + WriteLines(lines[1..])
  }

  /** `f.readlines()`: the text cut after every newline; a last line
      without one is kept as it stands. */
  function ReadLines(text: string): (lines: seq<string>)
    ensures FileLines(lines)
    ensures text == [] <==> lines == []
    decreases |text|
  {
    if text == [] then []
    else
      var rest := ReadLines(text[1..]);
      if text[0] == '\n' || rest == [] then [[text[0]]] + rest
      else [[text[0]] + rest[0]] + rest[1..]
  }

  /** Reading loses nothing: writing the lines read gives the text back. */
  lemma {:induction false} WriteReadLines(text: string)
    ensures WriteLines(ReadLines(text)) == text
    decreases |text|
  {
    if text != [] {
      var rest := ReadLines(text[1..]);
      WriteReadLines(text[1..]);
      if text[0] == '\n' || rest == [] {
        assert ([[text[0]]] + rest)[1..] == rest;
      } else {
        var lines := [[text[0]] + rest[0]] + rest[1..];
        assert lines[1..] == rest[1..];
        assert WriteLines(rest) == rest[0] + WriteLines(rest[1..]);
      }
    }
  }

  /** A shaped, terminated line followed by more text is read as that
      line first. */
  lemma {:induction false} ReadLinesAfter(line: string, text: string)
    requires LineShaped(line) && Terminated(line)
    ensures ReadLines(line + text) == [line] + ReadLines(text)
    decreases |line|
  {
    var t := line + text;
    assert t[1..] == line[1..] + text;
    if |line| > 1 {
      assert LineShaped(line[1..]) && Terminated(line[1..]);
      ReadLinesAfter(line[1..], text);
      assert line[0] != '\n';
      assert [line[0]] + line[1..] == line;
    } else {
      assert line == "\n" && t[1..] == text;
    }
  }

  /** A shaped line without a newline is read as one line. */
  lemma {:induction false} ReadLinesLast(line: string)
    requires LineShaped(line) && !Terminated(line)
    ensures ReadLines(line) == [line]
    decreases |line|
  {
    if |line| > 1 {
      assert LineShaped(line[1..]) && !Terminated(line[1..]);
      ReadLinesLast(line[1..]);
      assert line[0] != '\n';
      assert [line[0]] + line[1..] == line;
    } else {
      assert line[1..] == [] && [line[0]] == line;
    }
  }

  /** Writing lines of the shape `readlines()` gives and reading them back
      gives the same lines. */
  lemma {:induction false} ReadWrittenLines(lines: seq<string>)
    requires FileLines(lines)
    ensures ReadLines(WriteLines(lines)) == lines
    decreases |lines|
  {
    if lines != [] {
      var rest := lines[1..];
      assert FileLines(rest) by {
        assert forall i :: 0 <= i < |rest| ==> rest[i] == lines[i + 1];
      }
      ReadWrittenLines(rest);
      if Terminated(lines[0]) {
        ReadLinesAfter(lines[0], WriteLines(rest));
      } else {
        assert |lines| == 1 && rest == [];
        assert lines[0] + WriteLines(rest) == lines[0];
        ReadLinesLast(lines[0]);
      }
    }
  }

  /** The evident intent of the `save_*` helpers: a last line read
      without its newline gets one before anything is appended after it.
      Every line is then terminated, and no line's content changes. */
  function Terminate(lines: seq<string>): (out: seq<string>)
    ensures FileLines(lines) ==> AllTerminated(out)
    ensures |out| == |lines| && forall i :: 0 <= i < |lines| ==> out[i] == lines[i] || out[i] == lines[i] + "\n"
  {
    if lines == [] || Terminated(lines[|lines| - 1]) then lines
    else
      var last := lines[|lines| - 1];
      assert LineShaped(last) && !Terminated(last) ==> LineShaped(last + "\n");
      lines[|lines| - 1 := last + "\n"]
  }

  /** A file that ends with a newline, or is empty, reads as terminated
      lines, so there the helpers as written and as corrected agree. */
  lemma {:induction false} TerminatedTextUnchanged(text: string)
    requires text == [] || text[|text| - 1] == '\n'
    ensures Terminate(ReadLines(text)) == ReadLines(text)
  {
    var lines := ReadLines(text);
    if lines != [] {
      var last := lines[|lines| - 1];
      assert LineShaped(last);
      WriteReadLines(text);
      LastLineEnds(lines);
      assert Terminated(last);
    }
  }

  /** The text of non-empty lines ends where their last line ends. */
  lemma {:induction false} LastLineEnds(lines: seq<string>)
    requires lines != [] && |lines[|lines| - 1]| > 0
    ensures var text, last := WriteLines(lines), lines[|lines| - 1];
      |text| > 0 && text[|text| - 1] == last[|last| - 1]
    decreases |lines|
  {
    if |lines| > 1 {
      LastLineEnds(lines[1..]);
    } else {
      assert WriteLines(lines) == lines[0] + [];
    }
  }

  // ---------------------------------------------------------------------
  // Lines of the configuration file

  /** `f'{key}={value}\n'`, the key given with its `=`. */
  function KeyLine(prefix: string, value: string): (line: string)
    ensures StartsWith(line, prefix)
  {
    assert (prefix + value + "\n")[..|prefix|] == prefix;
    prefix + value + "\n"
  }

  /** `int(line.strip().split('=')[1])`; `None` where Python raises. */
  function IntValue(line: string): Option<int> {
    match Second(Strip(line), "=")
    case None => None
    case Some(v) => ParseInt(v)
  }

  /** `line.strip().split('=')[1]`; `None` where Python raises. */
  function TextValue(line: string): Option<string> {
    Second(Strip(line), "=")
  }

  /** A written line reads back as the value it was written with. */
  lemma KeyLineValue(key: string, value: string)
    requires |key| > 0 && !IsSpace(key[0]) && '=' !in key
    requires |value| > 0 && !IsSpace(value[|value| - 1]) && '=' !in value
    ensures TextValue(KeyLine(key + "=", value)) == Some(value)
  {
    var s := key + "=" + value;
    assert KeyLine(key + "=", value) == s + "\n";
    assert s[0] == key[0] && s[|s| - 1] == value[|value| - 1];
    StripNewline(s);
    SecondOfPair(key, '=', value);
  }

  /** A written natural reads back as itself. */
  lemma KeyLineNat(key: string, n: nat)
    requires |key| > 0 && !IsSpace(key[0]) && '=' !in key
    ensures IntValue(KeyLine(key + "=", NatToString(n))) == Some(n)
  {
    var v := NatToString(n);
    assert '=' !in v by {
      forall i | 0 <= i < |v| ensures v[i] != '=' { assert IsDigit(v[i]); }
    }
    assert !IsSpace(v[|v| - 1]) by { assert IsDigit(v[|v| - 1]); }
    KeyLineValue(key, v);
    ParseNatToString(n);
  }

  // ---------------------------------------------------------------------
  // `save_num_channels` / `load_num_channels`: the first match only

  const NumChannelsName := "num_channels"
  const NumChannelsKey := NumChannelsName + "="

  /** The index of the first line starting with `prefix`. */
  function FirstMatch(lines: seq<string>, prefix: string): (r: Option<nat>)
    ensures r.Some? ==> r.value < |lines| && StartsWith(lines[r.value], prefix)
    ensures r.Some? ==> forall i :: 0 <= i < r.value ==> !StartsWith(lines[i], prefix)
    ensures r.None? ==> forall i :: 0 <= i < |lines| ==> !StartsWith(lines[i], prefix)
    decreases |lines|
  {
    if lines == [] then None
    else if StartsWith(lines[0], prefix) then Some(0)
    else match FirstMatch(lines[1..], prefix)
      case None => None
      case Some(i) => Some(i + 1)
  }

  /** What `save_num_channels` writes back: the first matching line
      replaced, or the new line appended when none matches. */
  function ReplaceFirst(lines: seq<string>, prefix: string, line: string): seq<string> {
    match FirstMatch(lines, prefix)
    case None => lines + [line]
    case Some(i) => lines[i := line]
  }

  /** The update loop of `save_num_channels`, with its `break`. */
  method SaveFirst(lines: seq<string>, prefix: string, line: string) returns (out: seq<string>)
    ensures out == ReplaceFirst(lines, prefix, line)
  {
    out := lines;
    var found := false;
    var i := 0;
    while i < |out|
      invariant 0 <= i <= |out| && out == lines && !found
      invariant forall k :: 0 <= k < i ==> !StartsWith(lines[k], prefix)
    {
      if StartsWith(out[i], prefix) {
        out := out[i := line];
        found := true;
        assert FirstMatch(lines, prefix) == Some(i);
        break;
      }
      i := i + 1;
    }
    if !found {
      out := out + [line];
    }
  }

  /** Where the line saved by `ReplaceFirst` lands: no line before it
      carries the key. */
  lemma ReplacedAt(lines: seq<string>, prefix: string, line: string) returns (i: nat)
    ensures var saved := ReplaceFirst(lines, prefix, line);
      && i < |saved| && saved[i] == line
      && forall k :: 0 <= k < i ==> !StartsWith(saved[k], prefix)
  {
    var saved := ReplaceFirst(lines, prefix, line);
    match FirstMatch(lines, prefix)
    case None =>
      i := |lines|;
      assert forall k :: 0 <= k < i ==> saved[k] == lines[k];
    case Some(j) =>
      i := j;
      assert forall k :: 0 <= k < i ==> saved[k] == lines[k];
  }

  /** Saving a line that itself starts with the key a second time changes
      nothing more: the first match is the line written the first time. */
  lemma ReplaceFirstIdempotent(lines: seq<string>, prefix: string, line: string)
    requires StartsWith(line, prefix)
    ensures ReplaceFirst(ReplaceFirst(lines, prefix, line), prefix, line) == ReplaceFirst(lines, prefix, line)
  {
    var once := ReplaceFirst(lines, prefix, line);
    match FirstMatch(lines, prefix)
    case None =>
      assert once[|lines|] == line;
      assert forall k :: 0 <= k < |lines| ==> once[k] == lines[k];
      assert FirstMatch(once, prefix) == Some(|lines|);
    case Some(i) =>
      assert once[i] == line;
      assert forall k :: 0 <= k < i ==> once[k] == lines[k];
      assert FirstMatch(once, prefix) == Some(i);
  }

  /** `load_num_channels`: the first `num_channels=` line whose value is
      in range wins; an out-of-range value is skipped, but a value that is
      not an integer ends the whole read with the default 1. */
  function LoadNumChannels(lines: seq<string>): (n: int)
    ensures MinChannels <= n <= MaxChannels
    decreases |lines|
  {
    if lines == [] then 1
    else if StartsWith(lines[0], NumChannelsKey) then
      match IntValue(lines[0])
      case None => 1
      case Some(v) => if MinChannels <= v <= MaxChannels then v else LoadNumChannels(lines[1..])
    else LoadNumChannels(lines[1..])
  }

  /** Lines that do not carry the key are passed over by the loader. */
  lemma {:induction false} LoadSkips(lines: seq<string>, i: nat)
    requires i <= |lines|
    requires forall k :: 0 <= k < i ==> !StartsWith(lines[k], NumChannelsKey)
    ensures LoadNumChannels(lines) == LoadNumChannels(lines[i..])
    decreases i
  {
    if i > 0 {
      LoadSkips(lines[1..], i - 1);
      assert lines[1..][i - 1..] == lines[i..];
    }
  }

  /** Saving a channel count into the lines read and loading those lines
      back gives that count, whatever else they hold. */
  lemma SavedChannelsLoadLines(lines: seq<string>, n: nat)
    requires MinChannels <= n <= MaxChannels
    ensures LoadNumChannels(ReplaceFirst(lines, NumChannelsKey, KeyLine(NumChannelsKey, NatToString(n)))) == n
  {
    var line := KeyLine(NumChannelsKey, NatToString(n));
    var saved := ReplaceFirst(lines, NumChannelsKey, line);
    KeyLineNat(NumChannelsName, n);
    var i := ReplacedAt(lines, NumChannelsKey, line);
    LoadSkips(saved, i);
    assert saved[i..][0] == line;
  }

  // ---------------------------------------------------------------------
  // The other `save_*` helpers: every match of each key, through an
  // `if`/`elif` chain over the keys, then the missing keys appended

  /** One line after the update: the new line of its key, or untouched. */
  function Rewrite(line: string, prefixes: seq<string>, repl: seq<string>): string
    requires |repl| == |prefixes|
  {
    match MatchKey(line, prefixes)
    case None => line
    case Some(j) => repl[j]
  }

  /** `found_<key>`: some line is filed under key `j`. */
  predicate Present(lines: seq<string>, prefixes: seq<string>, j: nat)
    decreases |lines|
  {
    lines != [] && (MatchKey(lines[|lines| - 1], prefixes) == Some(j) || Present(lines[..|lines| - 1], prefixes, j))
  }

  /** `Present` says what it promises: a line filed under the key. */
  lemma {:induction false} PresentIff(lines: seq<string>, prefixes: seq<string>, j: nat)
    ensures Present(lines, prefixes, j) <==> exists k :: 0 <= k < |lines| && MatchKey(lines[k], prefixes) == Some(j)
    decreases |lines|
  {
    if lines != [] {
      var init := lines[..|lines| - 1];
      PresentIff(init, prefixes, j);
      assert forall k :: 0 <= k < |init| ==> init[k] == lines[k];
    }
  }

  /** The lines appended for the keys `0..j` not found, in key order. */
  function Appended(lines: seq<string>, prefixes: seq<string>, repl: seq<string>, j: nat): seq<string>
    requires j <= |prefixes| == |repl|
  {
    if j == 0 then []
    else Appended(lines, prefixes, repl, j - 1) + (if Present(lines, prefixes, j - 1) then [] else [repl[j - 1]])
  }

  /** What the update writes back. */
  function UpdateKeys(lines: seq<string>, prefixes: seq<string>, repl: seq<string>): seq<string>
    requires |repl| == |prefixes|
  {
    Rewritten(lines, prefixes, repl) + Appended(lines, prefixes, repl, |prefixes|)
  }

  /** The `if`/`elif` chain for one line. */
  method FileUnder(line: string, prefixes: seq<string>) returns (r: Option<nat>)
    ensures r == MatchKey(line, prefixes)
  {
    var j := 0;
    while j < |prefixes|
      invariant 0 <= j <= |prefixes|
      invariant forall q :: 0 <= q < j ==> !StartsWith(line, prefixes[q])
    {
      if StartsWith(line, prefixes[j]) {
        assert MatchKey(line, prefixes) == Some(j);
        return Some(j);
      }
      j := j + 1;
    }
    return None;
  }

  /** The rewritten lines, one per line of the file. */
  function Rewritten(lines: seq<string>, prefixes: seq<string>, repl: seq<string>): (out: seq<string>)
    requires |repl| == |prefixes|
    ensures |out| == |lines| && forall i :: 0 <= i < |lines| ==> out[i] == Rewrite(lines[i], prefixes, repl)
  {
    seq(|lines|, i requires 0 <= i < |lines| => Rewrite(lines[i], prefixes, repl))
  }

  /** The update loop of `save_yaxis_range`, `save_experiment_params` and
      `save_connection_params`, with its `found_*` flags. */
  method RewriteLines(lines: seq<string>, prefixes: seq<string>, repl: seq<string>)
    returns (out: seq<string>, found: seq<bool>)
    requires |repl| == |prefixes|
    ensures out == Rewritten(lines, prefixes, repl)
    ensures |found| == |prefixes| && forall j :: 0 <= j < |found| ==> found[j] == Present(lines, prefixes, j)
  {
    out := lines;
    found := seq(|prefixes|, _ => false);
    var i := 0;
    while i < |out|
      invariant 0 <= i <= |out| == |lines| && |found| == |prefixes|
      invariant forall k :: 0 <= k < i ==> out[k] == Rewrite(lines[k], prefixes, repl)
      invariant forall k :: i <= k < |out| ==> out[k] == lines[k]
      invariant forall j :: 0 <= j < |found| ==> found[j] == Present(lines[..i], prefixes, j)
    {
      var key := FileUnder(out[i], prefixes);
      assert lines[..i + 1][..i] == lines[..i];
      if key.Some? {
        out := out[i := repl[key.value]];
        found := found[key.value := true];
      }
      i := i + 1;
    }
    assert lines[..|lines|] == lines;
  }

  /** The whole update: rewrite, then append the keys not found. */
  method SaveKeys(lines: seq<string>, prefixes: seq<string>, repl: seq<string>) returns (out: seq<string>)
    requires |repl| == |prefixes|
    ensures out == UpdateKeys(lines, prefixes, repl)
  {
    var found;
    out, found := RewriteLines(lines, prefixes, repl);
    ghost var kept := out;
    var j := 0;
    while j < |prefixes|
      invariant 0 <= j <= |prefixes|
      invariant out == kept + Appended(lines, prefixes, repl, j)
    {
      if !found[j] {
        out := out + [repl[j]];
      }
      j := j + 1;
    }
  }

  /** The new lines are filed under their own keys. */
  ghost predicate WellKeyed(prefixes: seq<string>, repl: seq<string>) {
    && |repl| == |prefixes|
    && forall j :: 0 <= j < |repl| ==> MatchKey(repl[j], prefixes) == Some(j)
  }

  /** Every appended line is one of the new lines, and every missing key
      gets its line. */
  lemma {:induction false} AppendedLines(lines: seq<string>, prefixes: seq<string>, repl: seq<string>, m: nat)
    requires m <= |prefixes| == |repl|
    ensures forall x :: x in Appended(lines, prefixes, repl, m) ==> exists q :: 0 <= q < m && x == repl[q]
    ensures forall j :: 0 <= j < m && !Present(lines, prefixes, j) ==> repl[j] in Appended(lines, prefixes, repl, m)
    decreases m
  {
    if m > 0 {
      AppendedLines(lines, prefixes, repl, m - 1);
    }
  }

  /** After an update, every line filed under a key is exactly that key's
      new line, and every key has at least one line. */
  lemma UpdatedKeys(lines: seq<string>, prefixes: seq<string>, repl: seq<string>)
    requires WellKeyed(prefixes, repl)
    ensures var out := UpdateKeys(lines, prefixes, repl);
      && (forall i, j :: 0 <= i < |out| && MatchKey(out[i], prefixes) == Some(j) ==> out[i] == repl[j])
      && (forall j :: 0 <= j < |prefixes| ==> Present(out, prefixes, j))
  {
    UpdatedLinesMatch(lines, prefixes, repl);
    UpdatedKeysPresent(lines, prefixes, repl);
  }

  lemma UpdatedLinesMatch(lines: seq<string>, prefixes: seq<string>, repl: seq<string>)
    requires WellKeyed(prefixes, repl)
    ensures var out := UpdateKeys(lines, prefixes, repl);
      forall i, j :: 0 <= i < |out| && MatchKey(out[i], prefixes) == Some(j) ==> out[i] == repl[j]
  {
    var out := UpdateKeys(lines, prefixes, repl);
    var n := |prefixes|;
    AppendedLines(lines, prefixes, repl, n);
    var app := Appended(lines, prefixes, repl, n);
    forall i, j | 0 <= i < |out| && MatchKey(out[i], prefixes) == Some(j) ensures out[i] == repl[j] {
      if i < |lines| {
        if MatchKey(lines[i], prefixes).Some? {
          assert out[i] == repl[MatchKey(lines[i], prefixes).value];
        }
      } else {
        assert out[i] in app;
      }
    }
  }

  lemma UpdatedKeysPresent(lines: seq<string>, prefixes: seq<string>, repl: seq<string>)
    requires WellKeyed(prefixes, repl)
    ensures var out := UpdateKeys(lines, prefixes, repl);
      forall j :: 0 <= j < |prefixes| ==> Present(out, prefixes, j)
  {
    var out := UpdateKeys(lines, prefixes, repl);
    var n := |prefixes|;
    AppendedLines(lines, prefixes, repl, n);
    var app := Appended(lines, prefixes, repl, n);
    forall j | 0 <= j < n ensures Present(out, prefixes, j) {
      PresentIff(lines, prefixes, j);
      PresentIff(out, prefixes, j);
      if Present(lines, prefixes, j) {
        var k :| 0 <= k < |lines| && MatchKey(lines[k], prefixes) == Some(j);
        assert out[k] == repl[j];
      } else {
        var k :| 0 <= k < |app| && app[k] == repl[j];
        assert out[|lines| + k] == repl[j];
      }
    }
  }

  /** Saving the same values twice writes the same file as saving them
      once. */
  lemma UpdateKeysIdempotent(lines: seq<string>, prefixes: seq<string>, repl: seq<string>)
    requires WellKeyed(prefixes, repl)
    ensures UpdateKeys(UpdateKeys(lines, prefixes, repl), prefixes, repl) == UpdateKeys(lines, prefixes, repl)
  {
    var out := UpdateKeys(lines, prefixes, repl);
    UpdatedKeys(lines, prefixes, repl);
    assert Appended(out, prefixes, repl, |prefixes|) == [] by {
      NothingAppended(out, prefixes, repl, |prefixes|);
    }
    forall i | 0 <= i < |out| ensures Rewrite(out[i], prefixes, repl) == out[i] {
    }
  }

  lemma {:induction false} NothingAppended(lines: seq<string>, prefixes: seq<string>, repl: seq<string>, m: nat)
    requires m <= |prefixes| == |repl|
    requires forall j :: 0 <= j < |prefixes| ==> Present(lines, prefixes, j)
    ensures Appended(lines, prefixes, repl, m) == []
    decreases m
  {
    if m > 0 {
      NothingAppended(lines, prefixes, repl, m - 1);
    }
  }

  /** Where the loaders' reading of one key comes from: the last line
      filed under it. */
  function LastIndex(lines: seq<string>, prefixes: seq<string>, j: nat): (r: Option<nat>)
    ensures r.Some? ==> r.value < |lines| && MatchKey(lines[r.value], prefixes) == Some(j)
    ensures r.Some? ==> forall k :: r.value < k < |lines| ==> MatchKey(lines[k], prefixes) != Some(j)
    ensures r.None? ==> forall i :: 0 <= i < |lines| ==> MatchKey(lines[i], prefixes) != Some(j)
    decreases |lines|
  {
    if lines == [] then None
    else if MatchKey(lines[|lines| - 1], prefixes) == Some(j) then Some(|lines| - 1)
    else
      var init := lines[..|lines| - 1];
      assert forall k :: 0 <= k < |init| ==> init[k] == lines[k];
      LastIndex(init, prefixes, j)
  }

  /** The loaders' reading of one key: its last line wins (while no
      value before it makes `int()` or `float()` raise). */
  function LastMatch(lines: seq<string>, prefixes: seq<string>, j: nat): (r: Option<string>)
    ensures r.Some? ==> r.value in lines && MatchKey(r.value, prefixes) == Some(j)
    ensures r.Some? ==> exists i :: (0 <= i < |lines| && lines[i] == r.value
      && forall k :: i < k < |lines| ==> MatchKey(lines[k], prefixes) != Some(j))
    ensures r.None? ==> forall i :: 0 <= i < |lines| ==> MatchKey(lines[i], prefixes) != Some(j)
  {
    match LastIndex(lines, prefixes, j)
    case None => None
    case Some(i) => Some(lines[i])
  }

  /** What a loader reads back for each key is the line just saved. */
  lemma SavedKeysLoadLines(lines: seq<string>, prefixes: seq<string>, repl: seq<string>, j: nat)
    requires WellKeyed(prefixes, repl) && j < |prefixes|
    ensures LastMatch(UpdateKeys(lines, prefixes, repl), prefixes, j) == Some(repl[j])
  {
    var out := UpdateKeys(lines, prefixes, repl);
    UpdatedKeys(lines, prefixes, repl);
    PresentIff(out, prefixes, j);
    var r := LastMatch(out, prefixes, j);
    if r.Some? {
      var i :| 0 <= i < |out| && out[i] == r.value;
      assert out[i] == repl[j];
    }
  }

  /** The lines `f'{key}={value}\n'` for the keys in order. */
  function KeyLines(prefixes: seq<string>, values: seq<string>): (lines: seq<string>)
    requires |values| == |prefixes|
    ensures |lines| == |prefixes| && forall j :: 0 <= j < |lines| ==> lines[j] == KeyLine(prefixes[j], values[j])
  {
    seq(|prefixes|, j requires 0 <= j < |prefixes| => KeyLine(prefixes[j], values[j]))
  }

  /** Lines written for prefix-free keys are well keyed. */
  lemma PrefixFreeKeyed(prefixes: seq<string>, values: seq<string>)
    requires |values| == |prefixes| && PrefixFree(prefixes)
    ensures WellKeyed(prefixes, KeyLines(prefixes, values))
  {
    var repl := KeyLines(prefixes, values);
    forall j | 0 <= j < |repl| ensures MatchKey(repl[j], prefixes) == Some(j) {
      PrefixFreeMatch(repl[j], prefixes, j);
    }
  }

  // ---------------------------------------------------------------------
  // `save_connection_params` / `load_connection_params`

  const IpKey := "ip_address="
  const PortKey := "port_number="
  const ConnectionKeys := [IpKey, PortKey]

  lemma ConnectionKeysPrefixFree()
    ensures PrefixFree(ConnectionKeys)
  {
    assert IpKey[0] != PortKey[0];
  }

  /** Four dot-separated runs of one to three digits:
      `re.match(r'^(\d{1,3}\.){3}\d{1,3}$', ip)`. */
  predicate IsOctetText(part: string) {
    1 <= |part| <= 3 && forall i :: 0 <= i < |part| ==> IsDigit(part[i])
  }

  predicate IpShape(ip: string) {
    var parts := Split(ip, '.');
    |parts| == 4 && forall i :: 0 <= i < 4 ==> IsOctetText(parts[i])
  }

  /** How `save_connection_params` ends, in the order it checks: the port
      is not an integer, the address does not have the dotted shape, a
      number of the address is above 255, the port is outside 1..65535,
      or the values are stored. */
  datatype ConnectionCheck =
    | PortNotInteger
    | BadIpFormat
    | OctetOutOfRange
    | PortOutOfRange
    | Accepted(ip: string, port: int)

  /** `0 <= int(part) <= 255`, `int` succeeding. */
  predicate OctetValid(part: string) {
    ParseInt(part).Some? && 0 <= ParseInt(part).value <= 255
  }

  /** The `for part in ip_parts` range loop: the verdict against the first
      part that is not a number in 0..255, if any. */
  function FirstBadOctet(parts: seq<string>): (r: Option<ConnectionCheck>)
    ensures r.None? <==> forall i :: 0 <= i < |parts| ==> OctetValid(parts[i])
    ensures r.Some? ==> r.value == BadIpFormat || r.value == OctetOutOfRange
    decreases |parts|
  {
    if parts == [] then None
    else if !OctetValid(parts[0]) then
      if ParseInt(parts[0]).None? then Some(BadIpFormat) else Some(OctetOutOfRange)
    else
      var r := FirstBadOctet(parts[1..]);
      TailValid(parts);
      r
  }

  lemma TailValid(parts: seq<string>)
    requires parts != [] && OctetValid(parts[0])
    ensures (forall i :: 0 <= i < |parts| ==> OctetValid(parts[i]))
      <==> (forall i :: 0 <= i < |parts[1..]| ==> OctetValid(parts[1..][i]))
  {
    forall i | 1 <= i < |parts| ensures parts[i] == parts[1..][i - 1] {
    }
  }

  function CheckConnection(ipText: string, portText: string): (r: ConnectionCheck)
    ensures r.Accepted? ==> r.ip == Strip(ipText) && IpShape(r.ip) && 1 <= r.port <= 65535
  {
    var ip := Strip(ipText);
    match ParseInt(Strip(portText))
    case None => PortNotInteger
    case Some(port) =>
      if !IpShape(ip) then BadIpFormat
      else match FirstBadOctet(Split(ip, '.'))
        case Some(verdict) => verdict
        case None => if 1 <= port <= 65535 then Accepted(ip, port) else PortOutOfRange
  }

  /** An address the checks let through: the dotted shape, and every
      part a number in 0..255. */
  predicate AddressValid(ip: string) {
    IpShape(ip) && forall i :: 0 <= i < 4 ==> OctetValid(Split(ip, '.')[i])
  }

  /** The values are stored exactly when the port is an integer in
      1..65535 and the address is four dotted runs of one to three digits,
      each at most 255; a rejection names the first check that failed. */
  lemma ConnectionAcceptedIff(ipText: string, portText: string)
    ensures var ip, port := Strip(ipText), ParseInt(Strip(portText));
      && (CheckConnection(ipText, portText).Accepted? <==>
            port.Some? && 1 <= port.value <= 65535 && AddressValid(ip))
      && (port.None? ==> CheckConnection(ipText, portText) == PortNotInteger)
      && (port.Some? && !IpShape(ip) ==> CheckConnection(ipText, portText) == BadIpFormat)
  {
    var ip := Strip(ipText);
    if IpShape(ip) {
      FourOctets(Split(ip, '.'));
    }
  }

  lemma FourOctets(parts: seq<string>)
    requires |parts| == 4
    ensures FirstBadOctet(parts).None? <==> forall i :: 0 <= i < 4 ==> OctetValid(parts[i])
  {
  }

  /** The address as `str(a) + "." + ... + str(d)`. */
  function FormatIp(a: nat, b: nat, c: nat, d: nat): string {
    NatToString(a) + "." + NatToString(b) + "." + NatToString(c) + "." + NatToString(d)
  }

  lemma {:induction false} ShortNumeral(n: nat)
    requires n < 1000
    ensures |NatToString(n)| <= 3
  {
    if n >= 10 {
      ShortNumeral(n / 10);
      if n < 100 {
        assert n / 10 < 10;
      }
    }
  }

  /** A decimal numeral: digits only, so no dot, no `=` and no padding. */
  lemma NumeralText(n: nat)
    ensures var t := NatToString(n);
      && |t| > 0 && (forall i :: 0 <= i < |t| ==> IsDigit(t[i]))
      && '.' !in t && '=' !in t && Strip(t) == t
  {
    var t := NatToString(n);
    ParseNatToString(n);
    assert forall i :: 0 <= i < |t| ==> IsDigit(t[i]);
    DigitNotSpace(t[0]);
    DigitNotSpace(t[|t| - 1]);
    StripUnpadded(t);
  }

  lemma OctetText(n: nat)
    requires n <= 255
    ensures IsOctetText(NatToString(n)) && OctetValid(NatToString(n))
  {
    ShortNumeral(n);
    ParseNatToString(n);
    NumeralText(n);
  }

  /** Four dot-free texts joined by dots split back into themselves. */
  lemma DottedSplit(A: string, B: string, C: string, D: string)
    requires '.' !in A && '.' !in B && '.' !in C && '.' !in D
    ensures Split(A + "." + B + "." + C + "." + D, '.') == [A, B, C, D]
  {
    var cd := C + ['.'] + D;
    var bcd := B + ['.'] + cd;
    assert A + "." + B + "." + C + "." + D == A + ['.'] + bcd;
    calc {
      Split(A + ['.'] + bcd, '.');
      { SplitAfter(A, '.', bcd); }
      [A] + Split(bcd, '.');
      { SplitAfter(B, '.', cd); }
      [A] + ([B] + Split(cd, '.'));
      { SplitAfter(C, '.', D); SplitAbsent(D, '.'); }
      [A] + ([B] + ([C] + [D]));
    }
  }

  /** Four octet texts joined by dots have the dotted shape. */
  lemma QuadShape(A: string, B: string, C: string, D: string)
    requires IsOctetText(A) && IsOctetText(B) && IsOctetText(C) && IsOctetText(D)
    ensures var ip := A + "." + B + "." + C + "." + D;
      Split(ip, '.') == [A, B, C, D] && IpShape(ip) && Strip(ip) == ip
  {
    assert '.' !in A && '.' !in B && '.' !in C && '.' !in D by {
      assert forall i :: 0 <= i < |A| ==> IsDigit(A[i]);
      assert forall i :: 0 <= i < |B| ==> IsDigit(B[i]);
      assert forall i :: 0 <= i < |C| ==> IsDigit(C[i]);
      assert forall i :: 0 <= i < |D| ==> IsDigit(D[i]);
    }
    DottedSplit(A, B, C, D);
    assert IsDigit(A[0]) && IsDigit(D[|D| - 1]);
    var ip := A + "." + B + "." + C + "." + D;
    var parts := [A, B, C, D];
    assert Split(ip, '.') == parts;
    assert forall i :: 0 <= i < 4 ==> IsOctetText(parts[i]) by {
      forall i | 0 <= i < 4 ensures IsOctetText(parts[i]) {
        if i == 0 {} else if i == 1 {} else if i == 2 {} else {}
      }
    }
    assert ip[0] == A[0];
    assert ip[|ip| - 1] == D[|D| - 1];
    DigitNotSpace(A[0]);
    DigitNotSpace(D[|D| - 1]);
    StripUnpadded(ip);
  }

  /** Four octet texts joined by dots, with a port text that reads as a
      port in range, are accepted as they stand. */
  lemma QuadAccepted(A: string, B: string, C: string, D: string, portText: string, port: int)
    requires IsOctetText(A) && IsOctetText(B) && IsOctetText(C) && IsOctetText(D)
    requires FirstBadOctet([A, B, C, D]).None?
    requires ParseInt(Strip(portText)) == Some(port) && 1 <= port <= 65535
    ensures var ip := A + "." + B + "." + C + "." + D;
      CheckConnection(ip, portText) == Accepted(ip, port)
  {
    var ip := A + "." + B + "." + C + "." + D;
    QuadShape(A, B, C, D);
    AcceptedWhen(ip, portText, port);
  }

  lemma AcceptedWhen(ipText: string, portText: string, port: int)
    requires IpShape(Strip(ipText)) && FirstBadOctet(Split(Strip(ipText), '.')).None?
    requires ParseInt(Strip(portText)) == Some(port) && 1 <= port <= 65535
    ensures CheckConnection(ipText, portText) == Accepted(Strip(ipText), port)
  {
  }

  lemma NoBadOctet(parts: seq<string>)
    requires |parts| == 4 && OctetValid(parts[0]) && OctetValid(parts[1]) && OctetValid(parts[2]) && OctetValid(parts[3])
    ensures FirstBadOctet(parts) == None
  {
    forall i | 0 <= i < 4 ensures OctetValid(parts[i]) {
      if i == 0 {
      } else if i == 1 {
      } else if i == 2 {
      } else {
        assert i == 3;
      }
    }
  }

  /** Every address written with four numbers in 0..255, and every port in
      1..65535, is accepted and stored as written. */
  lemma DottedQuadAccepted(a: nat, b: nat, c: nat, d: nat, port: nat)
    requires a <= 255 && b <= 255 && c <= 255 && d <= 255 && 1 <= port <= 65535
    ensures CheckConnection(FormatIp(a, b, c, d), NatToString(port)) == Accepted(FormatIp(a, b, c, d), port)
  {
    var A, B, C, D := NatToString(a), NatToString(b), NatToString(c), NatToString(d);
    OctetTexts(a, b, c, d);
    PortTextReads(port);
    assert FormatIp(a, b, c, d) == A + "." + B + "." + C + "." + D;
    QuadAccepted(A, B, C, D, NatToString(port), port);
  }

  /** The numerals of four numbers up to 255 are valid octet texts. */
  lemma OctetTexts(a: nat, b: nat, c: nat, d: nat)
    requires a <= 255 && b <= 255 && c <= 255 && d <= 255
    ensures IsOctetText(NatToString(a)) && IsOctetText(NatToString(b))
    ensures IsOctetText(NatToString(c)) && IsOctetText(NatToString(d))
    ensures FirstBadOctet([NatToString(a), NatToString(b), NatToString(c), NatToString(d)]).None?
  {
    OctetText(a);
    OctetText(b);
    OctetText(c);
    OctetText(d);
    QuadValid(NatToString(a), NatToString(b), NatToString(c), NatToString(d));
  }

  /** Four valid octets have no bad one among them. */
  lemma QuadValid(A: string, B: string, C: string, D: string)
    requires OctetValid(A) && OctetValid(B) && OctetValid(C) && OctetValid(D)
    ensures FirstBadOctet([A, B, C, D]).None?
  {
    NoBadOctet([A, B, C, D]);
  }

  /** A port's numeral reads back through `int(text.strip())`. */
  lemma PortTextReads(port: nat)
    ensures ParseInt(Strip(NatToString(port))) == Some(port)
  {
    NumeralText(port);
    ParseNatToString(port);
  }


  /** An accepted address is digits and dots only, so it survives a round
      trip through its `ip_address=` line. */
  lemma {:induction false} JoinedDigits(parts: seq<string>)
    requires |parts| > 0 && forall i :: 0 <= i < |parts| ==> IsOctetText(parts[i])
    ensures var s := Join(parts, '.');
      |s| > 0 && IsDigit(s[|s| - 1]) && forall k :: 0 <= k < |s| ==> IsDigit(s[k]) || s[k] == '.'
    decreases |parts|
  {
    if |parts| > 1 {
      JoinedDigits(parts[1..]);
      var t := Join(parts[1..], '.');
      var s := parts[0] + ['.'] + t;
      assert Join(parts, '.') == s;
      forall k | 0 <= k < |s| ensures IsDigit(s[k]) || s[k] == '.' {
        if k < |parts[0]| {
          assert s[k] == parts[0][k];
        } else if k > |parts[0]| {
          assert s[k] == t[k - |parts[0]| - 1];
        }
      }
      assert s[|s| - 1] == t[|t| - 1];
    } else {
      assert Join(parts, '.') == parts[0];
    }
  }

  /** Digits and dots only, starting and ending with a digit. */
  lemma IpShapeText(ip: string)
    requires IpShape(ip)
    ensures |ip| > 0 && !IsSpace(ip[0]) && !IsSpace(ip[|ip| - 1]) && '=' !in ip && '\n' !in ip
  {
    var parts := Split(ip, '.');
    JoinSplit(ip, '.');
    JoinedDigits(parts);
    assert ip[0] == parts[0][0] by {
      assert ip == parts[0] + ['.'] + Join(parts[1..], '.');
    }
    assert IsDigit(parts[0][0]);
    assert forall k :: 0 <= k < |ip| ==> ip[k] != '=' && ip[k] != '\n' by {
      forall k | 0 <= k < |ip| ensures ip[k] != '=' && ip[k] != '\n' {
        assert IsDigit(ip[k]) || ip[k] == '.';
      }
    }
  }

  /** The lines `save_connection_params` writes for its two keys. */
  function ConnectionLines(ip: string, port: nat): seq<string> {
    KeyLines(ConnectionKeys, [ip, NatToString(port)])
  }

  /** The loader's variables: the address and port read so far, and
      whether an exception has ended the read. */
  datatype ConnectionRead = ConnectionRead(ip: string, port: int, stopped: bool)

  /** One line of `load_connection_params`: it goes through the
      `ip_address=` / `port_number=` chain; a port that is not an integer
      raises, which ends the read. */
  function ReadConnectionLine(before: ConnectionRead, line: string): ConnectionRead {
    match MatchKey(line, ConnectionKeys)
    case Some(0) =>
      (match TextValue(line)
       case None => before.(stopped := true)
       case Some(v) => before.(ip := v))
    case Some(1) =>
      (match IntValue(line)
       case None => before.(stopped := true)
       case Some(p) => before.(port := p))
    case _ => before
  }

  /** `load_connection_params`: the last `ip_address=` and `port_number=`
      lines win, and what was read before an exception is kept. */
  function LoadConnection(lines: seq<string>, defaults: ConnectionRead): ConnectionRead
    decreases |lines|
  {
    if lines == [] then defaults
    else
      var before := LoadConnection(lines[..|lines| - 1], defaults);
      if before.stopped then before else ReadConnectionLine(before, lines[|lines| - 1])
  }

  /** Reading a file whose address and port lines are all `ipLine` and
      `portLine`: each value read is the written one once its key has
      appeared. */
  lemma {:induction false} LoadWrittenConnection(lines: seq<string>, ipLine: string, portLine: string, ip: string, port: int, defaults: ConnectionRead)
    requires !defaults.stopped && TextValue(ipLine) == Some(ip) && IntValue(portLine) == Some(port)
    requires forall i :: 0 <= i < |lines| && MatchKey(lines[i], ConnectionKeys) == Some(0) ==> lines[i] == ipLine
    requires forall i :: 0 <= i < |lines| && MatchKey(lines[i], ConnectionKeys) == Some(1) ==> lines[i] == portLine
    ensures LoadConnection(lines, defaults) == ConnectionRead(
      if Present(lines, ConnectionKeys, 0) then ip else defaults.ip,
      if Present(lines, ConnectionKeys, 1) then port else defaults.port,
      false)
    decreases |lines|
  {
    if lines != [] {
      var init, last := lines[..|lines| - 1], lines[|lines| - 1];
      assert forall i :: 0 <= i < |init| ==> init[i] == lines[i];
      LoadWrittenConnection(init, ipLine, portLine, ip, port, defaults);
      ReadWrittenLine(LoadConnection(init, defaults), last, ipLine, portLine, ip, port);
    }
  }

  lemma ReadWrittenLine(before: ConnectionRead, line: string, ipLine: string, portLine: string, ip: string, port: int)
    requires !before.stopped && TextValue(ipLine) == Some(ip) && IntValue(portLine) == Some(port)
    requires MatchKey(line, ConnectionKeys) == Some(0) ==> line == ipLine
    requires MatchKey(line, ConnectionKeys) == Some(1) ==> line == portLine
    ensures var m := MatchKey(line, ConnectionKeys);
      ReadConnectionLine(before, line) == ConnectionRead(
        if m == Some(0) then ip else before.ip,
        if m == Some(1) then port else before.port,
        false)
  {
  }

  /** The address line of an accepted address reads back as it. */
  lemma IpLineReads(ip: string)
    requires IpShape(ip)
    ensures TextValue(KeyLine(IpKey, ip)) == Some(ip)
  {
    IpShapeText(ip);
    assert IpKey == "ip_address" + "=";
    KeyLineValue("ip_address", ip);
  }

  /** The port line reads back as the port. */
  lemma PortLineReads(port: nat)
    ensures IntValue(KeyLine(PortKey, NatToString(port))) == Some(port)
  {
    assert PortKey == "port_number" + "=";
    KeyLineNat("port_number", port);
  }

  /** Saving accepted connection values into the lines read and loading
      those lines back gives those values, whatever else they hold. */
  lemma SavedConnectionLoadsLines(lines: seq<string>, ipText: string, portText: string, defaults: ConnectionRead)
    requires CheckConnection(ipText, portText).Accepted? && !defaults.stopped
    ensures var r := CheckConnection(ipText, portText);
      LoadConnection(UpdateKeys(lines, ConnectionKeys, ConnectionLines(r.ip, r.port)), defaults) == ConnectionRead(r.ip, r.port, false)
  {
    var r := CheckConnection(ipText, portText);
    var repl := ConnectionLines(r.ip, r.port);
    var out := UpdateKeys(lines, ConnectionKeys, repl);
    assert (forall i, j :: 0 <= i < |out| && MatchKey(out[i], ConnectionKeys) == Some(j) ==> out[i] == repl[j])
      && Present(out, ConnectionKeys, 0) && Present(out, ConnectionKeys, 1) by {
      ConnectionKeysPrefixFree();
      PrefixFreeKeyed(ConnectionKeys, [r.ip, NatToString(r.port)]);
      UpdatedKeys(lines, ConnectionKeys, repl);
    }
    assert TextValue(repl[0]) == Some(r.ip) && IntValue(repl[1]) == Some(r.port) by {
      IpLineReads(r.ip);
      PortLineReads(r.port);
    }
    LoadWrittenConnection(out, repl[0], repl[1], r.ip, r.port, defaults);
  }

  // ---------------------------------------------------------------------
  // `save_experiment_params`

  const ExperimentKeys := ["cycle_total=", "contraction_time=", "relaxation_time=", "voice_broadcast_enabled="]

  lemma ExperimentKeysPrefixFree()
    ensures PrefixFree(ExperimentKeys)
  {
    var k := ExperimentKeys;
    assert k[0][1] != k[1][1] && k[0][0] != k[2][0] && k[0][0] != k[3][0];
    assert k[1][0] != k[2][0] && k[1][0] != k[3][0] && k[2][0] != k[3][0];
  }

  /** How `save_experiment_params` ends, in the order it checks. */
  datatype ExperimentCheck =
    | TotalOutOfRange
    | ContractionOutOfRange
    | RelaxationOutOfRange
    | Saved(settings: Cycle.Settings)

  function CheckExperiment(total: int, contraction: real, relaxation: real, voice: bool): (r: ExperimentCheck)
    ensures r.Saved? ==> r.settings == Cycle.Settings(total, contraction, relaxation, voice)
  {
    if total < 1 || total > 50 then TotalOutOfRange
    else if contraction < 1.0 || contraction > 60.0 then ContractionOutOfRange
    else if relaxation < 1.0 || relaxation > 60.0 then RelaxationOutOfRange
    else Saved(Cycle.Settings(total, contraction, relaxation, voice))
  }

  /** Parameters are saved exactly when all three are in range, and then
      every delay the sequencer schedules lies between one second and a
      minute. */
  lemma SavedExperimentDelays(total: int, contraction: real, relaxation: real, voice: bool)
    ensures CheckExperiment(total, contraction, relaxation, voice).Saved? <==>
      1 <= total <= 50 && 1.0 <= contraction <= 60.0 && 1.0 <= relaxation <= 60.0
    ensures CheckExperiment(total, contraction, relaxation, voice).Saved? ==>
      1000 <= Cycle.Millis(contraction) <= 60000 && 1000 <= Cycle.Millis(relaxation) <= 60000
  {
  }

  /** `voice_broadcast_enabled={1 if voice else 0}`. */
  function ExperimentLines(total: nat, contractionText: string, relaxationText: string, voice: bool): seq<string> {
    KeyLines(ExperimentKeys, [NatToString(total), contractionText, relaxationText, if voice then "1" else "0"])
  }

  /** Saved experiment parameters read back as written. */
  lemma SavedExperimentLoadsLines(lines: seq<string>, total: nat, contractionText: string, relaxationText: string, voice: bool, j: nat)
    requires j < 4
    ensures LastMatch(UpdateKeys(lines, ExperimentKeys, ExperimentLines(total, contractionText, relaxationText, voice)), ExperimentKeys, j)
      == Some(ExperimentLines(total, contractionText, relaxationText, voice)[j])
  {
    ExperimentKeysPrefixFree();
    PrefixFreeKeyed(ExperimentKeys, [NatToString(total), contractionText, relaxationText, if voice then "1" else "0"]);
    SavedKeysLoadLines(lines, ExperimentKeys, ExperimentLines(total, contractionText, relaxationText, voice), j);
  }

  // ---------------------------------------------------------------------
  // `save_yaxis_range`

  /** The keys of the main view and of the preview. */
  function YAxisKeys(main: bool): seq<string> {
    if main then ["y_top_main=", "y_bottom_main="] else ["y_top_preview=", "y_bottom_preview="]
  }

  lemma YAxisKeysPrefixFree(main: bool)
    ensures PrefixFree(YAxisKeys(main))
  {
    var k := YAxisKeys(main);
    assert k[0][2] != k[1][2];
  }

  /** Saved limits (their decimal text) read back as written. */
  lemma SavedYAxisLoadsLines(lines: seq<string>, main: bool, topText: string, bottomText: string, j: nat)
    requires j < 2
    ensures LastMatch(UpdateKeys(lines, YAxisKeys(main), KeyLines(YAxisKeys(main), [topText, bottomText])), YAxisKeys(main), j)
      == Some(KeyLines(YAxisKeys(main), [topText, bottomText])[j])
  {
    YAxisKeysPrefixFree(main);
    PrefixFreeKeyed(YAxisKeys(main), [topText, bottomText]);
    SavedKeysLoadLines(lines, YAxisKeys(main), KeyLines(YAxisKeys(main), [topText, bottomText]), j);
  }

  // ---------------------------------------------------------------------
  // The saved file read back

  /** `save_num_channels` as written, on the file text. */
  function SaveNumChannelsAsWritten(text: string, n: nat): string {
    WriteLines(ReplaceFirst(ReadLines(text), NumChannelsKey, KeyLine(NumChannelsKey, NatToString(n))))
  }

  /** `save_num_channels` with the last line terminated before the key
      line can be appended after it. */
  function SaveNumChannels(text: string, n: nat): string {
    WriteLines(ReplaceFirst(Terminate(ReadLines(text)), NumChannelsKey, KeyLine(NumChannelsKey, NatToString(n))))
  }

  /** `save_num_channels` on the file: the lines read, the update loop,
      the lines written back. */
  method SaveChannelsFile(text: string, n: nat) returns (out: string)
    ensures out == SaveNumChannels(text, n)
  {
    var line := KeyLine(NumChannelsKey, NatToString(n));
    var lines := SaveFirst(Terminate(ReadLines(text)), NumChannelsKey, line);
    out := WriteLines(lines);
  }

  /** The multi-key `save_*` helpers on the file text, the last line
      terminated first. */
  function SaveKeysText(text: string, prefixes: seq<string>, repl: seq<string>): string
    requires |repl| == |prefixes|
  {
    WriteLines(UpdateKeys(Terminate(ReadLines(text)), prefixes, repl))
  }

  /** `save_yaxis_range`, `save_experiment_params` and
      `save_connection_params` as written, on the file text. */
  function SaveKeysTextAsWritten(text: string, prefixes: seq<string>, repl: seq<string>): string
    requires |repl| == |prefixes|
  {
    WriteLines(UpdateKeys(ReadLines(text), prefixes, repl))
  }

  /** Lines none of whose keys are present get every key line appended,
      in key order. */
  lemma {:induction false} AppendedAll(lines: seq<string>, prefixes: seq<string>, repl: seq<string>, m: nat)
    requires m <= |prefixes| == |repl|
    requires forall q :: 0 <= q < m ==> !Present(lines, prefixes, q)
    ensures Appended(lines, prefixes, repl, m) == repl[..m]
    decreases m
  {
    if m > 0 {
      AppendedAll(lines, prefixes, repl, m - 1);
      assert repl[..m] == repl[..m - 1] + [repl[m - 1]];
    }
  }

  /** A line that starts with none of the keys' first characters is
      filed under none of them. */
  lemma UnkeyedLine(line: string, prefixes: seq<string>)
    requires |line| > 0
    requires forall q :: 0 <= q < |prefixes| ==> |prefixes[q]| > 0 && line[0] != prefixes[q][0]
    ensures MatchKey(line, prefixes) == None
  {
    forall q | 0 <= q < |prefixes| ensures !StartsWith(line, prefixes[q]) {
      Differ(line, prefixes[q], 0);
    }
  }

  /** As written, the update of a file holding one unterminated line that
      carries none of the keys keeps that line and appends every key
      line after it. */
  lemma {:induction false} UnkeyedLineUpdated(t: string, prefixes: seq<string>, repl: seq<string>)
    requires |repl| == |prefixes|
    requires LineShaped(t) && !Terminated(t) && MatchKey(t, prefixes) == None
    ensures UpdateKeys(ReadLines(t), prefixes, repl) == [t] + repl
  {
    ReadLinesLast(t);
    assert Rewritten([t], prefixes, repl) == [t];
    forall q | 0 <= q < |prefixes| ensures !Present([t], prefixes, q) {
      PresentIff([t], prefixes, q);
    }
    AppendedAll([t], prefixes, repl, |prefixes|);
    assert repl[..|prefixes|] == repl;
  }

  /** An unterminated line written before terminated lines is read back
      glued to the first of them. */
  lemma {:induction false} GluedLinesRead(t: string, repl: seq<string>)
    requires LineShaped(t) && !Terminated(t) && AllTerminated(repl) && |repl| > 0
    ensures WriteLines([t] + repl) == t + repl[0] + WriteLines(repl[1..])
    ensures ReadLines(WriteLines([t] + repl)) == [t + repl[0]] + repl[1..]
  {
    var rest := repl[1..];
    assert ([t] + repl)[1..] == repl;
    assert WriteLines(repl) == repl[0] + WriteLines(rest);
    var merged := t + repl[0];
    assert LineShaped(merged) && Terminated(merged) by {
      assert LineShaped(repl[0]) && Terminated(repl[0]);
      forall i | 0 <= i < |merged| - 1 ensures merged[i] != '\n' {
        if i >= |t| {
          assert merged[i] == repl[0][i - |t|];
        }
      }
    }
    assert t + (repl[0] + WriteLines(rest)) == merged + WriteLines(rest);
    ReadLinesAfter(merged, WriteLines(rest));
    assert FileLines(rest) by {
      assert forall i :: 0 <= i < |rest| ==> rest[i] == repl[i + 1];
    }
    ReadWrittenLines(rest);
  }

  /** As written, a multi-key save into a file of one unterminated line
      filed under none of the keys writes that line with the first key
      line glued to it, and the rest of the key lines after it. */
  lemma UnterminatedLineGlued(t: string, prefixes: seq<string>, repl: seq<string>)
    requires |repl| == |prefixes| && AllTerminated(repl) && |repl| > 0
    requires LineShaped(t) && !Terminated(t) && MatchKey(t, prefixes) == None
    ensures SaveKeysTextAsWritten(t, prefixes, repl) == t + repl[0] + WriteLines(repl[1..])
    ensures ReadLines(SaveKeysTextAsWritten(t, prefixes, repl)) == [t + repl[0]] + repl[1..]
  {
    UnkeyedLineUpdated(t, prefixes, repl);
    GluedLinesRead(t, repl);
  }

  /** As written, a multi-key save into a file whose one line has no
      newline and is filed under none of the keys appends every key
      line, the first glued to the end of that line: the fused line is
      filed under no key, so the first key has no line of its own and a
      loader keeps its default for it. */
  lemma UnterminatedLineLosesKey(t: string, prefixes: seq<string>, repl: seq<string>)
    requires WellKeyed(prefixes, repl) && AllTerminated(repl) && |prefixes| > 0
    requires LineShaped(t) && !Terminated(t)
    requires forall q :: 0 <= q < |prefixes| ==> |prefixes[q]| > 0 && t[0] != prefixes[q][0]
    ensures SaveKeysTextAsWritten(t, prefixes, repl) == t + repl[0] + WriteLines(repl[1..])
    ensures ReadLines(SaveKeysTextAsWritten(t, prefixes, repl)) == [t + repl[0]] + repl[1..]
    ensures LastMatch(ReadLines(SaveKeysTextAsWritten(t, prefixes, repl)), prefixes, 0) == None
  {
    UnkeyedLine(t, prefixes);
    UnterminatedLineGlued(t, prefixes, repl);
    var out := [t + repl[0]] + repl[1..];
    UnkeyedLine(t + repl[0], prefixes);
    forall i | 0 <= i < |out| ensures MatchKey(out[i], prefixes) != Some(0) {
      if i > 0 {
        assert out[i] == repl[i];
      }
    }
  }

  /** As written, saving accepted connection values into a file whose one
      line has no newline and is not a connection line loses the address:
      `load_connection_params` reads back its default address, and only
      the port. */
  lemma IpLostAsWritten(t: string, ipText: string, portText: string, defaults: ConnectionRead)
    requires CheckConnection(ipText, portText).Accepted? && !defaults.stopped
    requires LineShaped(t) && !Terminated(t) && t[0] != IpKey[0] && t[0] != PortKey[0]
    ensures var r := CheckConnection(ipText, portText);
      LoadConnection(ReadLines(SaveKeysTextAsWritten(t, ConnectionKeys, ConnectionLines(r.ip, r.port))), defaults)
        == ConnectionRead(defaults.ip, r.port, false)
  {
    var r := CheckConnection(ipText, portText);
    IpShapeText(r.ip);
    IpLostFor(t, r.ip, r.port, defaults);
  }

  lemma IpLostFor(t: string, ip: string, port: nat, defaults: ConnectionRead)
    requires '\n' !in ip && !defaults.stopped
    requires LineShaped(t) && !Terminated(t) && t[0] != IpKey[0] && t[0] != PortKey[0]
    ensures LoadConnection(ReadLines(SaveKeysTextAsWritten(t, ConnectionKeys, ConnectionLines(ip, port))), defaults)
      == ConnectionRead(defaults.ip, port, false)
  {
    ConnectionLinesKeyed(ip, port);
    var repl := ConnectionLines(ip, port);
    UnkeyedLine(t, ConnectionKeys);
    UnkeyedLine(t + repl[0], ConnectionKeys);
    PortKeptAsWritten(t, repl, port, defaults);
  }

  /** As written, saving two connection lines into a one-line file
      without a final newline leaves only the port line readable when the
      glued line is filed under neither key. */
  lemma PortKeptAsWritten(t: string, repl: seq<string>, port: int, defaults: ConnectionRead)
    requires AllTerminated(repl) && |repl| == |ConnectionKeys| && !defaults.stopped
    requires MatchKey(repl[1], ConnectionKeys) == Some(1) && IntValue(repl[1]) == Some(port)
    requires LineShaped(t) && !Terminated(t) && MatchKey(t, ConnectionKeys) == None
    requires MatchKey(t + repl[0], ConnectionKeys) == None
    ensures LoadConnection(ReadLines(SaveKeysTextAsWritten(t, ConnectionKeys, repl)), defaults)
      == ConnectionRead(defaults.ip, port, false)
  {
    UnterminatedLineGlued(t, ConnectionKeys, repl);
    assert repl[1..] == [repl[1]];
    PortOnlyLoads(t + repl[0], repl[1], port, defaults);
  }

  /** The connection lines, for an address without a newline, are two
      terminated lines filed under their own keys, and the port line
      reads back as the port. */
  lemma ConnectionLinesKeyed(ip: string, port: nat)
    requires '\n' !in ip
    ensures var repl := ConnectionLines(ip, port);
      && WellKeyed(ConnectionKeys, repl) && AllTerminated(repl) && |repl| == 2
      && MatchKey(repl[1], ConnectionKeys) == Some(1) && IntValue(repl[1]) == Some(port)
  {
    NumeralNoNewline(port);
    assert '\n' !in IpKey && '\n' !in PortKey;
    KeyLinesTerminated(ConnectionKeys, [ip, NatToString(port)]);
    ConnectionKeysPrefixFree();
    PrefixFreeKeyed(ConnectionKeys, [ip, NatToString(port)]);
    PortLineReads(port);
  }

  /** An unkeyed line followed by a port line reads as the default
      address and that port. */
  lemma PortOnlyLoads(line: string, portLine: string, port: int, defaults: ConnectionRead)
    requires !defaults.stopped && MatchKey(line, ConnectionKeys) == None
    requires MatchKey(portLine, ConnectionKeys) == Some(1) && IntValue(portLine) == Some(port)
    ensures LoadConnection([line] + [portLine], defaults) == ConnectionRead(defaults.ip, port, false)
  {
    var lines := [line] + [portLine];
    assert lines[..1] == [line] && [line][..0] == [];
    assert ReadConnectionLine(defaults, line) == defaults;
    assert LoadConnection([line], defaults) == defaults;
    assert ReadConnectionLine(defaults, portLine) == ConnectionRead(defaults.ip, port, false);
  }

  /** As written, saving experiment parameters into a file whose one line
      has no newline and is not an experiment line loses `cycle_total`:
      `load_experiment_params` finds no line for it and keeps its
      default. */
  lemma CycleTotalLostAsWritten(t: string, total: nat, contractionText: string, relaxationText: string, voice: bool)
    requires '\n' !in contractionText && '\n' !in relaxationText
    requires LineShaped(t) && !Terminated(t) && t[0] != 'c' && t[0] != 'r' && t[0] != 'v'
    ensures var repl := ExperimentLines(total, contractionText, relaxationText, voice);
      LastMatch(ReadLines(SaveKeysTextAsWritten(t, ExperimentKeys, repl)), ExperimentKeys, 0) == None
  {
    ExperimentLinesKeyed(total, contractionText, relaxationText, voice);
    assert forall q :: 0 <= q < |ExperimentKeys| ==> |ExperimentKeys[q]| > 0 && t[0] != ExperimentKeys[q][0];
    UnterminatedLineLosesKey(t, ExperimentKeys, ExperimentLines(total, contractionText, relaxationText, voice));
  }

  /** The experiment lines, for times whose text holds no newline, are
      terminated and filed under their own keys. */
  lemma ExperimentLinesKeyed(total: nat, contractionText: string, relaxationText: string, voice: bool)
    requires '\n' !in contractionText && '\n' !in relaxationText
    ensures var repl := ExperimentLines(total, contractionText, relaxationText, voice);
      WellKeyed(ExperimentKeys, repl) && AllTerminated(repl)
  {
    var values := [NatToString(total), contractionText, relaxationText, if voice then "1" else "0"];
    assert forall q :: 0 <= q < 4 ==> '\n' !in ExperimentKeys[q] && '\n' !in values[q] by {
      forall q | 0 <= q < 4 ensures '\n' !in ExperimentKeys[q] && '\n' !in values[q] {
        if q == 0 {
          NumeralNoNewline(total);
        }
      }
    }
    KeyLinesTerminated(ExperimentKeys, values);
    ExperimentKeysPrefixFree();
    PrefixFreeKeyed(ExperimentKeys, values);
  }

  /** As written, saving y-axis limits into a file whose one line has no
      newline and is not a y-axis line loses the top limit:
      `load_yaxis_range` finds no line for it and keeps its default. */
  lemma YTopLostAsWritten(t: string, main: bool, topText: string, bottomText: string)
    requires '\n' !in topText && '\n' !in bottomText
    requires LineShaped(t) && !Terminated(t) && t[0] != 'y'
    ensures var repl := KeyLines(YAxisKeys(main), [topText, bottomText]);
      LastMatch(ReadLines(SaveKeysTextAsWritten(t, YAxisKeys(main), repl)), YAxisKeys(main), 0) == None
  {
    var values := [topText, bottomText];
    assert forall q :: 0 <= q < 2 ==> '\n' !in YAxisKeys(main)[q] && '\n' !in values[q];
    KeyLinesTerminated(YAxisKeys(main), values);
    YAxisKeysPrefixFree(main);
    PrefixFreeKeyed(YAxisKeys(main), values);
    UnterminatedLineLosesKey(t, YAxisKeys(main), KeyLines(YAxisKeys(main), values));
  }

  /** As written, the line `save_num_channels` appends fuses with a last
      line that has no newline. A file holding one such line that is not
      a `num_channels=` line (`y_top_main=1.5`, say) gets the key line
      glued to its end, no line of the result starts with
      `num_channels=`, and the count reads back as the default 1. */
  lemma {:induction false} UnterminatedLineLosesCount(t: string, n: nat)
    requires LineShaped(t) && !Terminated(t) && t[0] != NumChannelsKey[0]
    ensures SaveNumChannelsAsWritten(t, n) == t + KeyLine(NumChannelsKey, NatToString(n))
    ensures LoadNumChannels(ReadLines(SaveNumChannelsAsWritten(t, n))) == 1
  {
    var line := KeyLine(NumChannelsKey, NatToString(n));
    ReadLinesLast(t);
    Differ(t, NumChannelsKey, 0);
    assert ReplaceFirst([t], NumChannelsKey, line) == [t, line];
    assert WriteLines([t, line]) == t + line by {
      var ls: seq<string> := [t, line];
      assert ls[1..] == [line] && ls[1..][1..] == [];
      assert WriteLines([line]) == line + WriteLines([]);
      assert line + [] == line;
      assert WriteLines(ls) == t + WriteLines([line]);
    }
    var merged := t + line;
    NumeralNoNewline(n);
    KeyLineShaped(NumChannelsKey, NatToString(n));
    assert LineShaped(merged) && Terminated(merged) by {
      forall i | 0 <= i < |merged| - 1 ensures merged[i] != '\n' {
        if i >= |t| {
          assert merged[i] == line[i - |t|];
        }
      }
    }
    ReadLinesAfter(merged, "");
    assert merged + "" == merged;
    Differ(merged, NumChannelsKey, 0);
  }

  /** The instance named in the documentation above. */
  lemma UnterminatedConfigExample()
    ensures LoadNumChannels(ReadLines(SaveNumChannelsAsWritten("y_top_main=1.5", 4))) == 1
  {
    var t := "y_top_main=1.5";
    assert LineShaped(t) && !Terminated(t);
    UnterminatedLineLosesCount(t, 4);
  }

  /** A numeral holds no newline. */
  lemma NumeralNoNewline(n: nat)
    ensures '\n' !in NatToString(n)
  {
    var t := NatToString(n);
    forall i | 0 <= i < |t| ensures t[i] != '\n' {
      assert IsDigit(t[i]);
    }
  }

  /** A key line with no newline in it is one shaped, terminated line. */
  lemma KeyLineShaped(prefix: string, value: string)
    requires '\n' !in prefix && '\n' !in value
    ensures LineShaped(KeyLine(prefix, value)) && Terminated(KeyLine(prefix, value))
  {
    var line := KeyLine(prefix, value);
    forall i | 0 <= i < |line| - 1 ensures line[i] != '\n' {
      if i < |prefix| {
        assert line[i] == prefix[i];
      } else {
        assert line[i] == value[i - |prefix|];
      }
    }
  }

  lemma ReplaceFirstTerminated(lines: seq<string>, prefix: string, line: string)
    requires AllTerminated(lines) && LineShaped(line) && Terminated(line)
    ensures AllTerminated(ReplaceFirst(lines, prefix, line))
  {
  }

  lemma UpdateKeysTerminated(lines: seq<string>, prefixes: seq<string>, repl: seq<string>)
    requires |repl| == |prefixes| && AllTerminated(lines) && AllTerminated(repl)
    ensures AllTerminated(UpdateKeys(lines, prefixes, repl))
  {
    var out := UpdateKeys(lines, prefixes, repl);
    var app := Appended(lines, prefixes, repl, |prefixes|);
    AppendedLines(lines, prefixes, repl, |prefixes|);
    forall i | 0 <= i < |out| ensures LineShaped(out[i]) && Terminated(out[i]) {
      if i >= |lines| {
        assert out[i] in app;
      }
    }
  }

  /** What a multi-key save writes reads back as the lines it updated. */
  lemma {:induction false} SavedKeysReadBack(text: string, prefixes: seq<string>, repl: seq<string>)
    requires |repl| == |prefixes| && AllTerminated(repl)
    ensures ReadLines(SaveKeysText(text, prefixes, repl)) == UpdateKeys(Terminate(ReadLines(text)), prefixes, repl)
  {
    var out := UpdateKeys(Terminate(ReadLines(text)), prefixes, repl);
    UpdateKeysTerminated(Terminate(ReadLines(text)), prefixes, repl);
    ReadWrittenLines(out);
  }

  /** Saving a channel count to the configuration file and loading it
      back gives that count, whatever the file held before. */
  lemma {:induction false} SavedChannelsLoad(text: string, n: nat)
    requires MinChannels <= n <= MaxChannels
    ensures LoadNumChannels(ReadLines(SaveNumChannels(text, n))) == n
  {
    var lines := Terminate(ReadLines(text));
    var line := KeyLine(NumChannelsKey, NatToString(n));
    NumeralNoNewline(n);
    KeyLineShaped(NumChannelsKey, NatToString(n));
    ReplaceFirstTerminated(lines, NumChannelsKey, line);
    ReadWrittenLines(ReplaceFirst(lines, NumChannelsKey, line));
    SavedChannelsLoadLines(lines, n);
  }

  /** What a loader reads back for each key of a multi-key save is the
      line just saved, whatever the file held before. */
  lemma {:induction false} SavedKeysLoad(text: string, prefixes: seq<string>, repl: seq<string>, j: nat)
    requires WellKeyed(prefixes, repl) && AllTerminated(repl) && j < |prefixes|
    ensures LastMatch(ReadLines(SaveKeysText(text, prefixes, repl)), prefixes, j) == Some(repl[j])
  {
    SavedKeysReadBack(text, prefixes, repl);
    SavedKeysLoadLines(Terminate(ReadLines(text)), prefixes, repl, j);
  }

  /** The lines written for keys and values without newlines are shaped
      and terminated. */
  lemma KeyLinesTerminated(prefixes: seq<string>, values: seq<string>)
    requires |values| == |prefixes|
    requires forall j :: 0 <= j < |prefixes| ==> '\n' !in prefixes[j] && '\n' !in values[j]
    ensures AllTerminated(KeyLines(prefixes, values))
  {
    forall j | 0 <= j < |prefixes| {
      KeyLineShaped(prefixes[j], values[j]);
    }
  }

  /** Saving accepted connection values to the configuration file and
      loading them back gives those values, whatever the file held
      before. */
  lemma {:induction false} SavedConnectionLoads(text: string, ipText: string, portText: string, defaults: ConnectionRead)
    requires CheckConnection(ipText, portText).Accepted? && !defaults.stopped
    ensures var r := CheckConnection(ipText, portText);
      LoadConnection(ReadLines(SaveKeysText(text, ConnectionKeys, ConnectionLines(r.ip, r.port))), defaults)
        == ConnectionRead(r.ip, r.port, false)
  {
    var r := CheckConnection(ipText, portText);
    IpShapeText(r.ip);
    ConnectionLinesReadBack(text, r.ip, r.port);
    SavedConnectionLoadsLines(Terminate(ReadLines(text)), ipText, portText, defaults);
  }

  /** The two connection lines, for an address without a newline, read
      back as the lines the save updated. */
  lemma ConnectionLinesReadBack(text: string, ip: string, port: nat)
    requires '\n' !in ip
    ensures ReadLines(SaveKeysText(text, ConnectionKeys, ConnectionLines(ip, port)))
      == UpdateKeys(Terminate(ReadLines(text)), ConnectionKeys, ConnectionLines(ip, port))
  {
    NumeralNoNewline(port);
    assert '\n' !in IpKey && '\n' !in PortKey;
    KeyLinesTerminated(ConnectionKeys, [ip, NatToString(port)]);
    SavedKeysReadBack(text, ConnectionKeys, ConnectionLines(ip, port));
  }

  /** Saved experiment parameters read back from the saved file,
      whatever it held before; the two times are the `str()` of a float,
      which holds no newline. */
  lemma {:induction false} SavedExperimentLoads(text: string, total: nat, contractionText: string, relaxationText: string, voice: bool, j: nat)
    requires j < 4 && '\n' !in contractionText && '\n' !in relaxationText
    ensures var repl := ExperimentLines(total, contractionText, relaxationText, voice);
      LastMatch(ReadLines(SaveKeysText(text, ExperimentKeys, repl)), ExperimentKeys, j) == Some(repl[j])
  {
    var values := [NatToString(total), contractionText, relaxationText, if voice then "1" else "0"];
    assert forall q :: 0 <= q < 4 ==> '\n' !in ExperimentKeys[q] && '\n' !in values[q] by {
      forall q | 0 <= q < 4 ensures '\n' !in ExperimentKeys[q] && '\n' !in values[q] {
        if q == 0 {
          NumeralNoNewline(total);
        }
      }
    }
    KeyLinesTerminated(ExperimentKeys, values);
    SavedKeysReadBack(text, ExperimentKeys, ExperimentLines(total, contractionText, relaxationText, voice));
    SavedExperimentLoadsLines(Terminate(ReadLines(text)), total, contractionText, relaxationText, voice, j);
  }

  /** Saved limits (their decimal text, which holds no newline) read back
      from the saved file, whatever it held before. */
  lemma {:induction false} SavedYAxisLoads(text: string, main: bool, topText: string, bottomText: string, j: nat)
    requires j < 2 && '\n' !in topText && '\n' !in bottomText
    ensures var repl := KeyLines(YAxisKeys(main), [topText, bottomText]);
      LastMatch(ReadLines(SaveKeysText(text, YAxisKeys(main), repl)), YAxisKeys(main), j) == Some(repl[j])
  {
    var values := [topText, bottomText];
    assert forall q :: 0 <= q < 2 ==> '\n' !in YAxisKeys(main)[q] && '\n' !in values[q];
    KeyLinesTerminated(YAxisKeys(main), values);
    SavedKeysReadBack(text, YAxisKeys(main), KeyLines(YAxisKeys(main), values));
    SavedYAxisLoadsLines(Terminate(ReadLines(text)), main, topText, bottomText, j);
  }
}
