/** The training countdown of `WiFiHardwareController`
    (Professional/kongzhi.py:218-276). Start, resume and pause send their
    command to the device and drive a once-a-second tick. The tick shows
    the time left as `MM:SS` and pauses the training when the time has run
    out. Each step is a function from the old state to the new one and
    what the step did; `CountdownTimer` holds the state and applies them. */
module Countdown {
  import opened Common
  import opened Text

  /** `remaining_time`, `countdown_running`, and whether
      `countdown_after_id` names a tick waiting to fire. */
  datatype State = State(remaining: int, running: bool, tickScheduled: bool)

  /** The state `__init__` sets up. */
  const Initial := State(0, false, false)

  /** What a step does besides changing the state: the commands handed to
      `send_command`, in order; the time put in the countdown label, if
      any, which the label shows as `Clock(shown)`; and whether the input
      error box was shown. */
  datatype Effects = Effects(sent: seq<string>, shown: Option<nat>, inputError: bool)

  /** What a step that sends only `command` does. */
  function Sends(command: string): Effects {
    Effects([command], None, false)
  }

  /** `f"{minutes:02d}:{seconds:02d}"` for `remaining` seconds. */
  function Clock(remaining: nat): string {
    Pad2(remaining / 60) + ":" + Pad2(remaining % 60)
  }

  /** `pause_training`. */
  function Pause(c: State): (State, Effects) {
    (c.(running := false, tickScheduled := false), Sends("pause"))
  }

  /** `update_countdown`, run by a tick or straight from start and
      resume. The label text "00:00" of the branch that pauses is
      `Clock(0)` (`ClockZero`). */
  function Tick(c: State): (State, Effects) {
    if c.running && c.remaining > 0 then
      (c.(remaining := c.remaining - 1, tickScheduled := true), Effects([], Some(c.remaining), false))
    else if c.remaining <= 0 then
      (Pause(c).0, Pause(c).1.(shown := Some(0)))
    else
      (c, Effects([], None, false))
  }

  /** A step that first sends `command` and then does what `r` does. */
  function SendFirst(command: string, r: (State, Effects)): (State, Effects) {
    (r.0, r.1.(sent := [command] + r.1.sent))
  }

  /** The durations `int(self.training_duration.get())` accepts. */
  predicate Accepts(durationText: string) {
    ParseInt(durationText).Some? && ParseInt(durationText).value > 0
  }

  /** `start_training`. */
  function Start(c: State, durationText: string): (State, Effects) {
    if c.running then (c, Sends("start"))
    else if Accepts(durationText) then
      SendFirst("start", Tick(c.(remaining := ParseInt(durationText).value, running := true)))
    else (c, Effects(["start", "pause"], None, true))
  }

  /** `resume_training`. */
  function Resume(c: State): (State, Effects) {
    if !c.running && c.remaining > 0 then SendFirst("start", Tick(c.(running := true)))
    else (c, Sends("start"))
  }

  /** `k` ticks in a row from `c`: the state they leave and what each
      did. */
  function Ticks(c: State, k: nat): (State, seq<Effects>)
    decreases k
  {
    if k == 0 then (c, [])
    else
      var rest := Ticks(Tick(c).0, k - 1);
      (rest.0, [Tick(c).1] + rest.1)
  }

  /** A tick is waiting exactly while the countdown runs, and the time
      left is never negative. */
  predicate Consistent(c: State) {
    c.running == c.tickScheduled && c.remaining >= 0
  }

  // ---------------------------------------------------------------------
  // The label

  /** The label reads back as the time it shows: minutes and seconds
      split at the colon, seconds below 60 and two digits wide. */
  lemma ClockReadsBack(r: nat)
    ensures var parts := Split(Clock(r), ':');
      && parts == [Pad2(r / 60), Pad2(r % 60)] && |parts[1]| == 2
      && NumeralValue(parts[1]) < 60
      && 60 * NumeralValue(parts[0]) + NumeralValue(parts[1]) == r
  {
    var m, s := Pad2(r / 60), Pad2(r % 60);
    assert ':' !in m by {
      forall i | 0 <= i < |m| ensures m[i] != ':' {
        assert IsDigit(m[i]);
      }
    }
    assert ':' !in s by {
      forall i | 0 <= i < |s| ensures s[i] != ':' {
        assert IsDigit(s[i]);
      }
    }
    SplitAfter(m, ':', s);
    SplitAbsent(s, ':');
    if r % 60 >= 10 {
      assert s == NatToString((r % 60) / 10) + [DigitChar(r % 60 % 10)];
    }
  }

  /** The label of a countdown that has run out. */
  lemma ClockZero()
    ensures Clock(0) == "00:00"
  {
    assert Pad2(0) == "00";
  }

  /** Different times never show the same label. */
  lemma ClockInjective(a: nat, b: nat)
    requires Clock(a) == Clock(b)
    ensures a == b
  {
    ClockReadsBack(a);
    ClockReadsBack(b);
  }

  // ---------------------------------------------------------------------
  // Running to zero

  /** A running countdown with `r` seconds left shows `r`, `r - 1`, ...,
      1 on its next `r` ticks, then "00:00" on the one after, which sends
      "pause" and leaves the countdown stopped at zero. */
  lemma {:induction false} RunsOut(c: State)
    requires c.running && c.remaining >= 0
    ensures Ticks(c, c.remaining + 1).0 == State(0, false, false)
    ensures var es := Ticks(c, c.remaining + 1).1;
      && |es| == c.remaining + 1
      && (forall i :: 0 <= i < c.remaining ==> es[i] == Effects([], Some(c.remaining - i), false))
      && es[c.remaining] == Effects(["pause"], Some(0), false)
    decreases c.remaining
  {
    var es := Ticks(c, c.remaining + 1).1;
    if c.remaining > 0 {
      var next := State(c.remaining - 1, true, true);
      assert Tick(c) == (next, Effects([], Some(c.remaining), false));
      RunsOut(next);
      var rest := Ticks(next, c.remaining).1;
      assert es == [Tick(c).1] + rest;
      forall i | 0 < i <= c.remaining ensures es[i] == rest[i - 1] {
      }
    } else {
      assert es == [Tick(c).1];
    }
  }

  /** A start with duration `d` shows `d`, `d - 1`, ..., 1 and then
      "00:00": `d + 1` updates of the label, after which the training is
      paused with no time left. Only the first sends "start", only the
      last "pause". */
  lemma StartRunsOut(c: State, durationText: string, d: int)
    requires !c.running && ParseInt(durationText) == Some(d) && d > 0
    ensures var (started, first) := Start(c, durationText);
      var (end, later) := Ticks(started, d);
      && first == Effects(["start"], Some(d), false)
      && end == State(0, false, false)
      && |later| == d
      && (forall i :: 0 <= i < d - 1 ==> later[i] == Effects([], Some(d - 1 - i), false))
      && later[d - 1] == Effects(["pause"], Some(0), false)
  {
    RunsOut(Start(c, durationText).0);
  }

  // ---------------------------------------------------------------------
  // Start, resume and pause

  /** "start" is always sent first. A start is refused exactly when the
      countdown is stopped and the duration is not a positive integer;
      the error box is then shown, "pause" is sent and nothing changes. */
  lemma StartRefusedIff(c: State, durationText: string)
    ensures Start(c, durationText).1.sent[0] == "start"
    ensures Start(c, durationText).1.inputError <==> !c.running && !Accepts(durationText)
    ensures Start(c, durationText).1.inputError ==>
      Start(c, durationText) == (c, Effects(["start", "pause"], None, true))
    ensures c.running ==> Start(c, durationText) == (c, Sends("start"))
  {
  }

  /** Resume restarts the ticks exactly when the countdown is stopped
      with time left; otherwise it only sends "start". */
  lemma ResumeRestartsIff(c: State)
    ensures Resume(c).0.running <==> c.running || c.remaining > 0
    ensures Resume(c).1.shown.Some? <==> !c.running && c.remaining > 0
    ensures !(!c.running && c.remaining > 0) ==> Resume(c) == (c, Sends("start"))
  {
  }

  /** Pausing keeps the time left, stops the countdown and drops the
      waiting tick; a second pause changes nothing more. */
  lemma PauseIdempotent(c: State)
    ensures Pause(c).0 == State(c.remaining, false, false)
    ensures Pause(Pause(c).0) == Pause(c)
  {
  }

  /** Resuming right after a pause goes on from where the countdown
      stopped: the label shows the time that was left, and that second
      is counted off at once. */
  lemma PauseThenResume(c: State)
    requires c.remaining > 0
    ensures Resume(Pause(c).0) == (State(c.remaining - 1, true, true), Effects(["start"], Some(c.remaining), false))
  {
    assert ["start"] + [] == ["start"];
  }

  /** Every step keeps the countdown consistent, so start and resume,
      which only tick from a stopped countdown, never set a second chain
      of ticks going beside a waiting one. */
  lemma StepsKeepConsistent(c: State, durationText: string)
    requires Consistent(c)
    ensures Consistent(Start(c, durationText).0) && Consistent(Resume(c).0) && Consistent(Pause(c).0)
    ensures c.tickScheduled ==> Consistent(Tick(c).0)
    ensures Start(c, durationText).1.shown.Some? ==> !c.tickScheduled
    ensures Resume(c).1.shown.Some? ==> !c.tickScheduled
  {
  }

  /** The countdown as the controller holds it. */
  class CountdownTimer {
    var remaining: int
    var running: bool
    var tickScheduled: bool

    function Current(): State
      reads this
    {
      State(remaining, running, tickScheduled)
    }

    constructor()
      ensures Current() == Initial
    {
      remaining, running, tickScheduled := 0, false, false;
    }

    method Set(c: State)
      modifies this
      ensures Current() == c
    {
      remaining, running, tickScheduled := c.remaining, c.running, c.tickScheduled;
    }

    /** `start_training` with the text of the duration entry. */
    method StartTraining(durationText: string) returns (e: Effects)
      modifies this
      ensures (Current(), e) == Start(old(Current()), durationText)
    {
      var r := Start(Current(), durationText);
      Set(r.0);
      e := r.1;
    }

    /** `resume_training`. */
    method ResumeTraining() returns (e: Effects)
      modifies this
      ensures (Current(), e) == Resume(old(Current()))
    {
      var r := Resume(Current());
      Set(r.0);
      e := r.1;
    }

    /** `pause_training`. */
    method PauseTraining() returns (e: Effects)
      modifies this
      ensures (Current(), e) == Pause(old(Current()))
    {
      running, tickScheduled := false, false;
      e := Sends("pause");
    }

    /** `update_countdown`, when the waiting tick fires. */
    method UpdateCountdown() returns (e: Effects)
      modifies this
      ensures (Current(), e) == Tick(old(Current()))
    {
      if running && remaining > 0 {
        e := Effects([], Some(remaining), false);
        remaining, tickScheduled := remaining - 1, true;
      } else if remaining <= 0 {
        running, tickScheduled := false, false;
        e := Effects(["pause"], Some(0), false);
      } else {
        e := Effects([], None, false);
      }
    }
  }
}
