/** The contract/relax exercise sequencer of `NetworkDebugger`
    (Professional/caiji.py:1589-1659): `start_cycle_prompt`,
    `cycle_next_stage`, `stop_cycle_prompt`. Spoken prompts and timers are
    effects each step emits; the speech engine and the Tk event loop are
    outside the model. */
module Cycle {
  import opened Common

  /** `cycle_stage` values: relax is next (0), contract is next (1), the
      final relax has been prompted (3), finished (4). */
  const RelaxNext: int := 0
  const ContractNext: int := 1
  const LastRelaxDone: int := 3
  const Finished: int := 4

  /** Delay before the automatic collection toggle after the last cycle. */
  const FinishDelayMs: int := 1000

  /** `cycle_count`, `cycle_stage`, `cycle_running`, and whether
      `cycle_timer_id` holds a timer id (it is not cleared when the timer
      fires, only by `stop_cycle_prompt`). */
  datatype State = State(count: int, stage: int, running: bool, timerPending: bool)

  /** The experiment parameters the callbacks read each time they run:
      `cycle_total`, `contraction_time`, `relaxation_time`,
      `voice_broadcast_enabled`. */
  datatype Settings = Settings(total: int, contraction: real, relaxation: real, voice: bool)

  /** What is spoken: "请握紧" for cycle `n`, "请放松" announcing cycle `n`,
      and "实验结束". */
  datatype Prompt = Contract(n: int) | Relax(n: int) | Done

  /** A `root.after` request: the next stage callback, or the collection
      toggle that ends the session. */
  datatype Timer = NextStageAfter(ms: int) | ToggleAfter(ms: int)

  datatype Effects = Effects(prompt: Option<Prompt>, timer: Option<Timer>)

  const Quiet := Effects(None, None)

  /** `int(seconds * 1000)`: Python's `int` truncates toward zero. */
  function Millis(seconds: real): (ms: int)
    ensures seconds >= 0.0 ==> 0 <= ms && ms as real <= seconds * 1000.0 < ms as real + 1.0
    ensures seconds < 0.0 ==> ms <= 0 && ms as real - 1.0 < seconds * 1000.0 <= ms as real
  {
    if seconds >= 0.0 then (seconds * 1000.0).Floor else -((-seconds * 1000.0).Floor)
  }

  /** The state before any session; `cycle_next_stage` is never scheduled
      before the first start, so only `running` and the timer matter. */
  const Initial := State(0, RelaxNext, false, false)

  /** `start_cycle_prompt`: with voice on, cycle 1 starts at the contract
      stage and the first callback comes after the relaxation time (the
      first relax prompt was spoken by the collection toggle). */
  function Start(c: State, st: Settings): (State, Effects) {
    if !st.voice then (c, Quiet)
    else (State(1, ContractNext, true, true), Effects(None, Some(NextStageAfter(Millis(st.relaxation)))))
  }

  /** A spoken prompt only while voice is on. */
  function Say(st: Settings, p: Prompt): Option<Prompt> {
    if st.voice then Some(p) else None
  }

  /** `cycle_next_stage`. */
  function Next(c: State, st: Settings): (State, Effects) {
    if c.stage == LastRelaxDone then
      var c' := c.(running := false, stage := Finished);
      if st.voice then (c', Effects(Some(Done), Some(ToggleAfter(FinishDelayMs)))) else (c', Quiet)
    else if !c.running then (c, Quiet)
    else if c.count < st.total then
      if c.stage == ContractNext then
        (c.(stage := RelaxNext, timerPending := true),
         Effects(Say(st, Contract(c.count)), Some(NextStageAfter(Millis(st.contraction)))))
      else
        (c.(stage := ContractNext, count := c.count + 1, timerPending := true),
         Effects(Say(st, Relax(c.count + 1)), Some(NextStageAfter(Millis(st.relaxation)))))
    else if c.count == st.total then
      if c.stage == ContractNext then
        (c.(stage := RelaxNext, timerPending := true),
         Effects(Say(st, Contract(c.count)), Some(NextStageAfter(Millis(st.contraction)))))
      else if c.stage == RelaxNext then
        (c.(stage := LastRelaxDone, timerPending := true),
         Effects(Say(st, Relax(st.total + 1)), Some(NextStageAfter(Millis(st.relaxation)))))
      else (c, Quiet)
    else (c, Quiet)
  }

  /** `stop_cycle_prompt`: the second result says whether a timer was
      cancelled. */
  function Stop(c: State): (State, bool) {
    (c.(running := false, timerPending := false), c.timerPending)
  }

  /** Starting with voice off changes nothing and schedules nothing. */
  lemma StartWithoutVoice(c: State, st: Settings)
    requires !st.voice
    ensures Start(c, st) == (c, Quiet)
  {
  }

  /** Stopping is safe to repeat: a second stop finds no timer to cancel
      and leaves the state as the first left it. */
  lemma StopIdempotent(c: State)
    ensures !Stop(c).0.running && !Stop(c).0.timerPending
    ensures Stop(Stop(c).0) == (Stop(c).0, false)
    ensures Stop(c).1 <==> c.timerPending
  {
  }

  /** A callback while not running and not at the final stage changes
      nothing; in particular, once finished every later callback is a no-op. */
  lemma IdleIsInert(c: State, st: Settings)
    requires !c.running && c.stage != LastRelaxDone
    ensures Next(c, st) == (c, Quiet)
  {
  }

  /** After the final relax the next callback finishes: stage 4, not
      running, and the collection toggle is scheduled exactly when voice
      is on. */
  lemma FinishStep(c: State, st: Settings)
    requires c.stage == LastRelaxDone
    ensures Next(c, st).0.stage == Finished && !Next(c, st).0.running
    ensures Next(c, st).1.timer.Some? <==> st.voice
    ensures Next(Next(c, st).0, st) == (Next(c, st).0, Quiet)
  {
  }

  /** With the parameters unchanged, the cycle number stays within
      `1..cycle_total` once started. */
  lemma CountInRange(c: State, st: Settings)
    requires 1 <= c.count <= st.total
    ensures 1 <= Next(c, st).0.count <= st.total
  {
  }

  /** Every callback that is not a no-op schedules exactly one timer: the
      contraction time after a contract prompt, the relaxation time after a
      relax prompt. */
  lemma DelayFollowsPrompt(c: State, st: Settings)
    requires st.voice
    ensures Next(c, st).1.prompt.Some? <==> Next(c, st).1.timer.Some?
    ensures Next(c, st).1.prompt.Some? && Next(c, st).1.prompt.value.Contract? ==>
      Next(c, st).1.timer == Some(NextStageAfter(Millis(st.contraction)))
    ensures Next(c, st).1.prompt.Some? && Next(c, st).1.prompt.value.Relax? ==>
      Next(c, st).1.timer == Some(NextStageAfter(Millis(st.relaxation)))
  {
  }

  /** The effects of `k` successive callbacks, and the state they leave. */
  function Trace(c: State, st: Settings, k: nat): seq<Effects>
    decreases k
  {
    if k == 0 then [] else [Next(c, st).1] + Trace(Next(c, st).0, st, k - 1)
  }

  function After(c: State, st: Settings, k: nat): State
    decreases k
  {
    if k == 0 then c else After(Next(c, st).0, st, k - 1)
  }

  function ContractEffect(n: int, st: Settings): Effects {
    Effects(Some(Contract(n)), Some(NextStageAfter(Millis(st.contraction))))
  }

  function RelaxEffect(n: int, st: Settings): Effects {
    Effects(Some(Relax(n)), Some(NextStageAfter(Millis(st.relaxation))))
  }

  const DoneEffect := Effects(Some(Done), Some(ToggleAfter(FinishDelayMs)))

  /** The spoken course of the experiment from cycle `n` on, position by
      position: contracts at even positions (cycles `n..T`), relaxes at odd
      ones (announcing cycles `n + 1..T + 1`), and the end last. */
  function Expected(n: int, st: Settings): (e: seq<Effects>)
    requires 1 <= n <= st.total
    ensures |e| == 2 * (st.total - n) + 3
  {
    seq(2 * (st.total - n) + 3, i requires 0 <= i =>
      if i == 2 * (st.total - n) + 2 then DoneEffect
      else if i % 2 == 0 then ContractEffect(n + i / 2, st)
      else RelaxEffect(n + i / 2 + 1, st))
  }

  /** Peeling off one cycle of the expected course. */
  lemma ExpectedStep(n: int, st: Settings)
    requires 1 <= n <= st.total
    ensures n < st.total ==> Expected(n, st) == [ContractEffect(n, st), RelaxEffect(n + 1, st)] + Expected(n + 1, st)
    ensures n == st.total ==> Expected(n, st) == [ContractEffect(n, st), RelaxEffect(n + 1, st), DoneEffect]
  {
    if n < st.total {
      var e, t := Expected(n, st), Expected(n + 1, st);
      forall i | 2 <= i < |e| ensures e[i] == t[i - 2] {
        assert (i - 2) / 2 == i / 2 - 1 && (i - 2) % 2 == i % 2;
      }
      assert e == e[..2] + t;
    }
  }

  /** Two callbacks from the contract stage of cycle `n`. */
  lemma {:induction false} OneCycle(c: State, st: Settings)
    requires st.voice && c.running && c.stage == ContractNext && 1 <= c.count <= st.total
    ensures Trace(c, st, 2) == [ContractEffect(c.count, st), RelaxEffect(c.count + 1, st)]
    ensures c.count < st.total ==> After(c, st, 2) == State(c.count + 1, ContractNext, true, true)
    ensures c.count == st.total ==> After(c, st, 2) == State(c.count, LastRelaxDone, true, true)
  {
    var c1 := Next(c, st).0;
    assert c1 == c.(stage := RelaxNext, timerPending := true);
    assert Trace(c1, st, 1) == [Next(c1, st).1];
  }

  lemma {:induction false} TraceSplit(c: State, st: Settings, j: nat, k: nat)
    ensures Trace(c, st, j + k) == Trace(c, st, j) + Trace(After(c, st, j), st, k)
    ensures After(c, st, j + k) == After(After(c, st, j), st, k)
    decreases j
  {
    if j > 0 {
      TraceSplit(Next(c, st).0, st, j - 1, k);
    }
  }

  /** From the contract stage of cycle `n`, the remaining callbacks speak
      exactly `Expected(n)` and leave the sequencer finished. */
  lemma {:induction false} RunFrom(c: State, st: Settings)
    requires st.voice && c.running && c.stage == ContractNext && 1 <= c.count <= st.total
    ensures Trace(c, st, 2 * (st.total - c.count) + 3) == Expected(c.count, st)
    ensures After(c, st, 2 * (st.total - c.count) + 3) == State(st.total, Finished, false, true)
    decreases st.total - c.count
  {
    var k := 2 * (st.total - c.count) + 1;
    OneCycle(c, st);
    ExpectedStep(c.count, st);
    TraceSplit(c, st, 2, k);
    var c2 := After(c, st, 2);
    if c.count == st.total {
      assert Trace(c2, st, 1) == [Next(c2, st).1];
    } else {
      RunFrom(c2, st);
    }
  }

  /** The whole experiment: after a voiced start, `2T + 1` callbacks
      alternate contract and relax prompts, `T` contracts for cycles
      `1..T` and relaxes announcing cycles `2..T + 1`, each contract
      followed by the contraction time and each relax by the relaxation
      time; the last callback ends the experiment and schedules the
      collection toggle one second later. */
  lemma WholeExperiment(c: State, st: Settings)
    requires st.voice && st.total >= 1
    ensures var s := Start(c, st).0;
      && Trace(s, st, 2 * st.total + 1) == Expected(1, st)
      && After(s, st, 2 * st.total + 1) == State(st.total, Finished, false, true)
      && Next(After(s, st, 2 * st.total + 1), st) == (After(s, st, 2 * st.total + 1), Quiet)
  {
    RunFrom(Start(c, st).0, st);
  }

  /** The sequencer's fields of `NetworkDebugger`, updated in place by the
      three methods. */
  class CyclePrompter {
    var count: int
    var stage: int
    var running: bool
    var timerPending: bool

    function Get(): State
      reads this
    {
      State(count, stage, running, timerPending)
    }

    constructor ()
      ensures Get() == Initial
    {
      count, stage, running, timerPending := 0, RelaxNext, false, false;
    }

    method StartPrompt(st: Settings) returns (e: Effects)
      modifies this
      ensures (Get(), e) == Start(old(Get()), st)
    {
      if !st.voice {
        return Quiet;
      }
      count := 1;
      stage := ContractNext;
      running := true;
      timerPending := true;
      e := Effects(None, Some(NextStageAfter(Millis(st.relaxation))));
    }

    method NextStage(st: Settings) returns (e: Effects)
      modifies this
      ensures (Get(), e) == Next(old(Get()), st)
    {
      if stage == LastRelaxDone {
        running := false;
        stage := Finished;
        e := if st.voice then Effects(Some(Done), Some(ToggleAfter(FinishDelayMs))) else Quiet;
        return;
      }
      if !running {
        return Quiet;
      }
      e := Quiet;
      if count < st.total {
        if stage == ContractNext {
          stage := RelaxNext;
          timerPending := true;
          e := Effects(Say(st, Contract(count)), Some(NextStageAfter(Millis(st.contraction))));
        } else {
          stage := ContractNext;
          count := count + 1;
          timerPending := true;
          e := Effects(Say(st, Relax(count)), Some(NextStageAfter(Millis(st.relaxation))));
        }
      } else if count == st.total {
        if stage == ContractNext {
          stage := RelaxNext;
          timerPending := true;
          e := Effects(Say(st, Contract(count)), Some(NextStageAfter(Millis(st.contraction))));
        } else if stage == RelaxNext {
          stage := LastRelaxDone;
          timerPending := true;
          e := Effects(Say(st, Relax(st.total + 1)), Some(NextStageAfter(Millis(st.relaxation))));
        }
      }
    }

    method StopPrompt() returns (cancelled: bool)
      modifies this
      ensures (Get(), cancelled) == Stop(old(Get()))
    {
      running := false;
      cancelled := timerPending;
      if timerPending {
        timerPending := false;
      }
    }
  }
}
