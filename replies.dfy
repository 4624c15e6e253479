/** The reply dispatch of `WiFiHardwareController.process_received_data`
    (Professional/kongzhi.py:599-681): a chain of `startswith` tests over
    twenty prefixes, tried in order; the first that matches decides what
    the line updates, and a line matching none has no effect. The widgets
    a reply updates are named by the reply itself. */
module Replies {
  import opened Common
  import opened Text

  /** Replies that carry no value: the mode and calibration status texts
      and the missing-threshold error box. */
  datatype Notice =
    | EmgModeActive | WifiModeActive | CalibRelaxPrompt | CalibContractPrompt
    | CalibrationStarted | NoRecommendedThreshold

  /** Replies whose value is copied into a label or an entry: the
      calibration countdowns, the calibration averages, the thresholds,
      the speed settings and the three timing parameters. */
  datatype Field =
    | RelaxRemaining | ContractRemaining
    | RelaxAverage | ContractAverage | RecommendedThreshold
    | Threshold | ThresholdApplied
    | SpeedSet | SpeedUp | SpeedDown
    | Time2 | Time3 | Time4

  /** What one line does. An EMG reading holds the text that `float()` is
      applied to (`None` where the `split(": ")[1]` raises and the reading
      is dropped) and whether the line reports the sensor as connected. */
  datatype Reply =
    | Notice(notice: Notice)
    | Value(field: Field, text: string)
    | EmgReading(reading: Option<string>, sensorConnected: bool)
    | Ignored

  /** Where a branch of the chain leads. */
  datatype Branch = Announce(notice: Notice) | Assign(field: Field) | Emg

  /** The prefixes of the chain, in the order the `elif`s test them. */
  const ReplyPrefixes: seq<string> := [
    "EMG_MODE_ACTIVE", "WIFI_MODE_ACTIVE", "CALIB_START:RELAX", "CALIB_STAGE:CONTRACT",
    "RELAX,", "CONTRACT,", "Relax=", "Contract=", "Recommend=",
    "THRESHOLD:", "THRESHOLD_APPLIED:", "CALIBRATION_STARTED",
    "SPEED_SET:", "SPEEDUP:", "SPEEDDOWN:", "TIME2:", "TIME3:", "TIME4:",
    "EMG\U{503c}:", "ERROR:NO_RECOMMENDED_THRESHOLD"]

  /** The branch behind each prefix, in the same order. */
  const Branches: seq<Branch> := [
    Announce(EmgModeActive), Announce(WifiModeActive), Announce(CalibRelaxPrompt), Announce(CalibContractPrompt),
    Assign(RelaxRemaining), Assign(ContractRemaining), Assign(RelaxAverage), Assign(ContractAverage),
    Assign(RecommendedThreshold), Assign(Threshold), Assign(ThresholdApplied), Announce(CalibrationStarted),
    Assign(SpeedSet), Assign(SpeedUp), Assign(SpeedDown), Assign(Time2), Assign(Time3), Assign(Time4),
    Emg, Announce(NoRecommendedThreshold)]

  /** The text an EMG reading reports a connected sensor with. */
  const SensorConnected := "\U{5df2}\U{8fde}\U{63a5}"

  /** The character a field's value is split off with: `split(",")[1]`,
      `split("=")[1]` or `split(":")[1]`. */
  function Separator(f: Field): char {
    match f
    case RelaxRemaining => ','
    case ContractRemaining => ','
    case RelaxAverage => '='
    case ContractAverage => '='
    case RecommendedThreshold => '='
    case _ => ':'
  }

  /** A chain whose value branches all have prefixes ending in their
      separator, so the `split` after a match always has a second piece. */
  predicate ChainFits(prefixes: seq<string>, branches: seq<Branch>) {
    && |branches| == |prefixes|
    && forall k :: 0 <= k < |prefixes| && branches[k].Assign? ==>
         |prefixes[k]| > 0 && prefixes[k][|prefixes[k]| - 1] == Separator(branches[k].field)
  }

  lemma ReplyChainFits()
    ensures ChainFits(ReplyPrefixes, Branches)
  {
  }

  lemma PrefixChars(s: string, p: string, c: char)
    requires StartsWith(s, p) && c in p
    ensures c in s
  {
    var i :| 0 <= i < |p| && p[i] == c;
    assert s[..|p|][i] == s[i];
  }

  /** `line.split(sep)[1]` for a line that starts with a prefix ending in
      `sep`, where Python cannot raise. */
  function FieldOf(line: string, prefix: string): (v: string)
    requires |prefix| > 0 && StartsWith(line, prefix)
    ensures var parts := Split(line, prefix[|prefix| - 1]);
      |parts| > 1 && v == parts[1]
  {
    var sep := prefix[|prefix| - 1];
    PrefixChars(line, prefix, sep);
    FindChar(line, sep);
    SecondIsSplit(line, sep);
    Second(line, [sep]).value
  }

  /** The value text of an EMG reading, `line.split(": ")[1].split(",")[0]`;
      `None` where the first `split` has no second piece. */
  function EmgText(line: string): Option<string> {
    match Second(line, ": ")
    case Some(v) => Some(Before(v, ","))
    case None => None
  }

  /** An `if`/`elif` chain of `startswith` tests over `prefixes`, each
      leading to its branch. */
  function Dispatch(line: string, prefixes: seq<string>, branches: seq<Branch>): (r: Reply)
    requires ChainFits(prefixes, branches)
    ensures r.Ignored? <==> forall k :: 0 <= k < |prefixes| ==> !StartsWith(line, prefixes[k])
    ensures r.Value? ==>
      var parts := Split(line, Separator(r.field));
      |parts| > 1 && r.text == parts[1]
  {
    match MatchKey(line, prefixes)
    case None => Ignored
    case Some(k) =>
      match branches[k]
      case Announce(n) => Notice(n)
      case Assign(f) => Value(f, FieldOf(line, prefixes[k]))
      case Emg => EmgReading(EmgText(line), Find(line, SensorConnected) >= 0)
  }

  /** `process_received_data(line)`: the first prefix of the chain that
      `line` starts with picks the branch; a line starting with none has no
      effect, and a value is the second piece of `line.split(sep)`. */
  function Classify(line: string): (r: Reply)
    ensures r.Ignored? <==> forall k :: 0 <= k < |ReplyPrefixes| ==> !StartsWith(line, ReplyPrefixes[k])
    ensures r.Value? ==>
      var parts := Split(line, Separator(r.field));
      |parts| > 1 && r.text == parts[1]
  {
    ReplyChainFits();
    Dispatch(line, ReplyPrefixes, Branches)
  }

  /** The branch a line reaches once the chain has picked prefix `k`. */
  lemma DispatchAt(line: string, prefixes: seq<string>, branches: seq<Branch>, k: nat)
    requires ChainFits(prefixes, branches) && MatchKey(line, prefixes) == Some(k)
    ensures branches[k].Announce? ==> Dispatch(line, prefixes, branches) == Notice(branches[k].notice)
    ensures branches[k].Assign? ==>
      Dispatch(line, prefixes, branches).Value? && Dispatch(line, prefixes, branches).field == branches[k].field
    ensures branches[k].Emg? ==>
      Dispatch(line, prefixes, branches) == EmgReading(EmgText(line), Find(line, SensorConnected) >= 0)
  {
  }

  /** Once the chain has picked prefix `k`, the reply is that of its
      branch. */
  lemma ClassifyAt(line: string, k: nat)
    requires MatchKey(line, ReplyPrefixes) == Some(k)
    ensures Branches[k].Announce? ==> Classify(line) == Notice(Branches[k].notice)
    ensures Branches[k].Assign? ==> Classify(line).Value? && Classify(line).field == Branches[k].field
    ensures Branches[k].Emg? ==> Classify(line) == EmgReading(EmgText(line), Find(line, SensorConnected) >= 0)
  {
    ReplyChainFits();
    DispatchAt(line, ReplyPrefixes, Branches, k);
  }

  /** `"THRESHOLD:"` is tried before `"THRESHOLD_APPLIED:"` but is not a
      prefix of it: an applied-threshold line reaches its own branch, and
      its value is everything after the colon. */
  lemma ThresholdAppliedReachesItsBranch(v: string)
    requires ':' !in v
    ensures Classify("THRESHOLD_APPLIED:" + v) == Value(ThresholdApplied, v)
  {
    var line := "THRESHOLD_APPLIED:" + v;
    ThresholdAppliedLine(line, v);
    BranchesAt();
    ClassifyAt(line, 10);
  }

  /** The branches the near-miss lemmas below reach. */
  lemma BranchesAt()
    ensures Branches[10] == Assign(ThresholdApplied)
    ensures Branches[11] == Announce(CalibrationStarted)
    ensures Branches[18] == Emg
  {
  }

  lemma ThresholdAppliedLine(line: string, v: string)
    requires line == "THRESHOLD_APPLIED:" + v && ':' !in v
    ensures MatchKey(line, ReplyPrefixes) == Some(10)
    ensures Split(line, ':') == ["THRESHOLD_APPLIED", v]
  {
    ThresholdAppliedSplit(line, v);
    ThresholdAppliedStarts(line, v);
    ThresholdAppliedMatch(line);
  }

  lemma ThresholdAppliedSplit(line: string, v: string)
    requires line == "THRESHOLD_APPLIED:" + v && ':' !in v
    ensures Split(line, ':') == ["THRESHOLD_APPLIED", v]
  {
    var key := "THRESHOLD_APPLIED";
    assert ':' !in key;
    assert line == key + [':'] + v;
    SplitAfter(key, ':', v);
    SplitAbsent(v, ':');
  }

  lemma ThresholdAppliedStarts(line: string, v: string)
    requires line == "THRESHOLD_APPLIED:" + v
    ensures StartsWith(line, ReplyPrefixes[10])
  {
    assert ReplyPrefixes[10] == "THRESHOLD_APPLIED:";
    assert line[..18] == "THRESHOLD_APPLIED:";
  }

  lemma ThresholdAppliedMatch(line: string)
    requires StartsWith(line, ReplyPrefixes[10])
    ensures MatchKey(line, ReplyPrefixes) == Some(10)
  {
    assert line[..18] == ReplyPrefixes[10];
    forall q | 0 <= q < 10 ensures !StartsWith(line, ReplyPrefixes[q]) {
      Differ(line, ReplyPrefixes[q], if q == 9 then 9 else 0);
    }
    MatchKeyAt(line, ReplyPrefixes, 10);
  }

  /** `"EMG_MODE_ACTIVE"` and an EMG reading share their first three
      characters, yet a reading is never taken for the mode change. */
  lemma EmgReadingReachesItsBranch(line: string)
    requires StartsWith(line, ReplyPrefixes[18])
    ensures Classify(line) == EmgReading(EmgText(line), Find(line, SensorConnected) >= 0)
  {
    EmgLineMatch(line);
    ClassifyAt(line, 18);
  }

  lemma EmgLineMatch(line: string)
    requires StartsWith(line, ReplyPrefixes[18])
    ensures MatchKey(line, ReplyPrefixes) == Some(18) && Branches[18] == Emg
  {
    assert line[..5] == ReplyPrefixes[18];
    forall q | 0 <= q < 18 ensures !StartsWith(line, ReplyPrefixes[q]) {
      Differ(line, ReplyPrefixes[q], if q == 0 then 3 else 0);
    }
    MatchKeyAt(line, ReplyPrefixes, 18);
  }

  /** `"CALIB_START:RELAX"` is tried first, but a calibration-started line
      is not taken for it. */
  lemma CalibrationStartedReachesItsBranch(line: string)
    requires StartsWith(line, ReplyPrefixes[11])
    ensures Classify(line) == Notice(CalibrationStarted)
  {
    CalibrationStartedMatch(line);
    ClassifyAt(line, 11);
  }

  lemma CalibrationStartedMatch(line: string)
    requires StartsWith(line, ReplyPrefixes[11])
    ensures MatchKey(line, ReplyPrefixes) == Some(11) && Branches[11] == Announce(CalibrationStarted)
  {
    assert line[..19] == ReplyPrefixes[11];
    forall q | 0 <= q < 11 ensures !StartsWith(line, ReplyPrefixes[q]) {
      Differ(line, ReplyPrefixes[q], if q == 2 || q == 3 then 5 else if q == 5 || q == 7 then 1 else 0);
    }
    MatchKeyAt(line, ReplyPrefixes, 11);
  }
}
