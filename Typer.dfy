/**
 * The `TypingState` record and the `MarkovTyper` object: the mutable
 * rendering of the engine, whose methods update the state in place. Each
 * method is proved to do exactly what the corresponding function of module
 * Trajectory computes, so every property proved there carries over.
 */
module Typer {
  import opened Wrappers
  import Chars
  import opened Configuration
  import opened Keyboard
  import Language
  import opened Trajectory
  import TrajectoryProofs

  /** `TypingState`: the progress of one typing session. */
  class TypingState {
    var currentText: string
    var targetText: string
    var totalTime: real
    var history: seq<Event>
    var lastCharTyped: Option<char>
    var fatigue: real
    var mentalCursor: nat

    /** The defaults of the record, with the target filled in. */
    constructor (target: string)
      ensures Value() == State("", 0.0, [], None, 1.0, 0)
      ensures targetText == target
    {
      currentText := "";
      targetText := target;
      totalTime := 0.0;
      history := [];
      lastCharTyped := None;
      fatigue := 1.0;
      mentalCursor := 0;
    }

    /** The fields the engine reads and writes, as one value. */
    function Value(): State
      reads this
    {
      State(currentText, totalTime, history, lastCharTyped, fatigue, mentalCursor)
    }
  }

  /** Lines 83-92 of `step`: the first index where the texts differ, or the target length. */
  method FindFirstError(cur: string, t: string) returns (firstError: nat)
    ensures firstError == FirstErrorPos(cur, t)
    ensures firstError <= |t|
    ensures forall k :: 0 <= k < firstError && k < |cur| ==> cur[k] == t[k]
    ensures firstError < |t| ==> firstError < |cur| && cur[firstError] != t[firstError]
  {
    firstError := |t|;
    var minLen := if |cur| <= |t| then |cur| else |t|;
    for i := 0 to minLen
      invariant firstError == |t|
      invariant FirstDiffFrom(cur, t, i) == FirstErrorPos(cur, t)
    {
      if cur[i] != t[i] {
        firstError := i;
        break;
      }
    }
    // Over-typing keeps the target length as the divergence point.
    if |cur| > |t| && firstError == |t| {
      firstError := |t|;
    }
  }

  /** `MarkovTyper`: a target text, a keyboard, a session speed and the state being advanced. */
  class MarkovTyper {
    const cfg: Config
    const targetText: string
    const keyboard: Keyboard
    const state: TypingState
    const sessionWpm: real
    const baseKeystrokeTime: real

    /** The values fixed at construction, as the engine of module Trajectory. */
    function EngineOf(): Engine
      reads this
    {
      Engine(cfg, keyboard, targetText, baseKeystrokeTime)
    }

    /** What construction establishes about the fixed parts. */
    predicate Valid()
      reads this
    {
      EngineOf().Valid()
    }

    /**
     * `__init__`: the speed is one Normal sample (`wpmZ`) floored at 10, the
     * base interval follows from it, and the log opens with its INIT entry.
     * The keyboard is the layout's, for the accent encoding `enc`.
     */
    constructor (target: string, targetWpm: real, layout: string, config: Config, enc: Encoding, wpmZ: real)
      requires config.Valid()
      ensures Valid()
      ensures cfg == config && targetText == target && keyboard == KeyboardFor(layout, enc)
      ensures sessionWpm == SessionWpm(config, targetWpm, wpmZ)
      ensures baseKeystrokeTime == BaseKeystrokeTime(config, sessionWpm)
      ensures fresh(state) && state.targetText == target
      ensures state.Value() == Initial(sessionWpm)
      ensures Inv(EngineOf(), state.Value())
    {
      cfg := config;
      targetText := target;
      var kb := NewKeyboard(layout, enc);
      keyboard := kb;
      var st := new TypingState(target);
      state := st;
      var wpm := targetWpm + config.wpmStd * wpmZ;
      wpm := Max(MinSessionWpm, wpm);
      sessionWpm := wpm;
      baseKeystrokeTime := 60.0 / (wpm * config.avgWordLength);
      new;
      state.history := state.history + [Event(0.0, Init(sessionWpm), "")];
      TrajectoryProofs.InitialSatisfiesInv(EngineOf(), sessionWpm);
    }

    /** `_get_current_word_context`: walk left and right from the mental cursor to a space. */
    method CurrentWordContext() returns (word: Option<string>)
      ensures word == CurrentWord(targetText, state.mentalCursor)
    {
      var idx := state.mentalCursor;
      if idx >= |targetText| {
        return None;
      }
      var start: nat := idx;
      while start > 0 && targetText[start - 1] != ' '
        invariant start <= idx
        invariant WordStart(targetText, start) == WordStart(targetText, idx)
      {
        start := start - 1;
      }
      var end := idx;
      while end < |targetText| && targetText[end] != ' '
        invariant idx <= end <= |targetText|
        invariant WordEnd(targetText, end) == WordEnd(targetText, idx)
      {
        end := end + 1;
      }
      word := Some(targetText[start..end]);
    }

    /**
     * `_calculate_keystroke_time`, with the pause at a space (`spaceZ`) and the
     * final sample (`z`) supplied: the base interval scaled by fatigue, the
     * word and the key pair, plus the delay of a special character.
     */
    method KeystrokeDuration(c: char, spaceZ: real, z: real) returns (dt: real)
      ensures dt == KeystrokeTime(EngineOf(), state.Value(), c, spaceZ, z)
    {
      var e := EngineOf();
      ghost var s := state.Value();
      var time := baseKeystrokeTime * state.fatigue;
      var currentWord := CurrentWordContext();
      time := time * WordFactor(cfg, currentWord);
      time := time * PairFactor(e, state.lastCharTyped, c);
      time := time + Penalty(e, c, spaceZ);
      assert time == KeystrokeMean(e, s, c, spaceZ);
      dt := Max(MinKeystroke, time + cfg.timeKeystrokeStd * z);
    }

    /** Type the character of a keystroke event and log it. */
    method PressKey(kind: Kind, d: StepDraws) returns (ev: Option<Event>)
      requires IsKeystroke(kind)
      modifies state
      ensures (state.Value(), ev) == (Keystroke(EngineOf(), old(state.Value()), kind, d).next,
                                     Keystroke(EngineOf(), old(state.Value()), kind, d).event)
      ensures state.targetText == old(state.targetText)
    {
      var dt := KeystrokeDuration(kind.c, d.spaceZ, d.keystrokeZ);
      state.totalTime := state.totalTime + dt;
      state.currentText := state.currentText + [kind.c];
      state.lastCharTyped := Some(kind.c);
      var step := Event(state.totalTime, kind, state.currentText);
      state.history := state.history + [step];
      state.mentalCursor := state.mentalCursor + 1;
      ev := Some(step);
    }

    /** The correction phase of `step` once it decides to act: possibly react, then one backspace. */
    method PressBackspace(lastWasBackspace: bool, d: StepDraws) returns (ev: Option<Event>)
      requires |state.currentText| > 0
      modifies state
      ensures (state.Value(), ev) == (Correction(EngineOf(), old(state.Value()), lastWasBackspace, d).next,
                                     Correction(EngineOf(), old(state.Value()), lastWasBackspace, d).event)
      ensures state.targetText == old(state.targetText)
    {
      if !lastWasBackspace {
        state.totalTime := state.totalTime + ReactionTime(cfg, d.reactionZ);
      }
      state.totalTime := state.totalTime + BackspaceTime(cfg, d.backspaceZ);
      state.currentText := state.currentText[..|state.currentText| - 1];
      var step := Event(state.totalTime, Backspace, state.currentText);
      state.history := state.history + [step];
      state.mentalCursor := |state.currentText|;
      ev := Some(step);
    }

    /** The key `step` presses next: a swap with the following letter, a neighbouring key, or the intended one. */
    method PickKey(d: StepDraws) returns (kind: Kind)
      requires Valid() && state.mentalCursor < |targetText|
      ensures kind == ChooseKey(EngineOf(), state.mentalCursor, d)
    {
      ghost var e := EngineOf();
      var mc := state.mentalCursor;
      var intended := targetText[mc];
      assert e.target == targetText && e.cfg == cfg && e.kb == keyboard;
      if |targetText| > mc + 1 && targetText[mc + 1] != ' ' && targetText[mc + 1] != intended
         && d.swap < cfg.probSwapError {
        kind := TypedSwap(targetText[mc + 1]);
        assert kind == ChooseKey(e, mc, d);
      } else {
        var currentProbError := ErrorProbability(EngineOf(), mc, intended);
        if d.error < currentProbError {
          var wrong := GetRandomNeighbor(keyboard, intended, d.neighborPick);
          kind := TypedError(wrong);
          assert kind == ChooseKey(e, mc, d);
        } else {
          kind := Typed(intended);
          assert kind == ChooseKey(e, mc, d);
        }
      }
    }

    /** The typing phase of `step`: fatigue grows, then the chosen key is pressed. */
    method TypeIntended(d: StepDraws) returns (ev: Option<Event>)
      requires Valid() && state.mentalCursor < |targetText|
      modifies state
      ensures state.Value() == TypeNext(EngineOf(), old(state.Value()), d).next
      ensures ev == TypeNext(EngineOf(), old(state.Value()), d).event
      ensures state.targetText == old(state.targetText)
    {
      ghost var before := state.Value();
      ghost var eng := EngineOf();
      state.fatigue := state.fatigue * cfg.fatigueFactor;
      ghost var tired := state.Value();
      assert tired == Tired(eng, before) by {
        assert tired.(fatigue := before.fatigue) == before;
      }
      var kind := PickKey(d);
      TrajectoryProofs.TypeNextUnfold(eng, before, d);
      ev := PressKey(kind, d);
    }

    /** `step`: nothing once the text is complete; otherwise correct a noticed error or type on. */
    method Step(d: StepDraws) returns (ev: Option<Event>)
      requires Valid()
      modifies state
      ensures state.Value() == StepOf(EngineOf(), old(state.Value()), d).next
      ensures ev == StepOf(EngineOf(), old(state.Value()), d).event
      ensures state.targetText == old(state.targetText)
    {
      if state.currentText == targetText {
        return None;
      }
      var firstError := FindFirstError(state.currentText, targetText);
      var lastWasBackspace := |state.history| > 0 && state.history[|state.history| - 1].kind.Backspace?;
      if firstError < |state.currentText| {
        var shouldCorrect := false;
        if lastWasBackspace {
          shouldCorrect := true;
        } else if state.mentalCursor >= |targetText| {
          shouldCorrect := true;
        } else if |state.currentText| > 0 {
          var lastChar := state.currentText[|state.currentText| - 1];
          var distance := |state.currentText| - firstError;
          if lastChar in Boundaries {
            shouldCorrect := true;
          } else if distance >= 2 {
            if d.notice < DriftNoticeProb {
              shouldCorrect := true;
            }
          } else if distance == 1 {
            if d.notice < cfg.probNoticeError {
              shouldCorrect := true;
            }
          }
        }
        assert shouldCorrect == ShouldCorrect(EngineOf(), state.Value(), firstError, lastWasBackspace, d.notice);
        if shouldCorrect {
          ev := PressBackspace(lastWasBackspace, d);
          return;
        }
      }
      if state.mentalCursor > |state.currentText| {
        state.mentalCursor := |state.currentText|;
      }
      if state.mentalCursor >= |targetText| {
        return None;
      }
      ev := TypeIntended(d);
    }

    /** One turn of the `run` loop: a step, then the check on the step budget. */
    method RunTurn(draws: nat -> StepDraws, steps: nat, maxSteps: nat, ghost result: State) returns (stop: bool)
      requires Valid() && steps <= maxSteps
      requires RunLoop(EngineOf(), state.Value(), draws, steps, maxSteps) == result
      modifies state
      ensures stop ==> state.Value() == result
      ensures !stop ==> steps + 1 <= maxSteps && RunLoop(EngineOf(), state.Value(), draws, steps + 1, maxSteps) == result
    {
      TrajectoryProofs.RunLoopStep(EngineOf(), state.Value(), draws, steps, maxSteps);
      var ev := Step(draws(steps));
      stop := ev.None? || steps + 1 > maxSteps;
    }

    /** `run`: step until a step emits nothing or the counter passes ten steps per target character. */
    method Run(draws: nat -> StepDraws) returns (totalTime: real, history: seq<Event>)
      requires Valid()
      modifies state
      ensures state.Value() == Trajectory.Run(EngineOf(), old(state.Value()), draws)
      ensures totalTime == state.totalTime && history == state.history
    {
      var steps: nat := 0;
      var maxSteps := Budget(targetText);
      ghost var result := Trajectory.Run(EngineOf(), state.Value(), draws);
      while true
        invariant steps <= maxSteps
        invariant RunLoop(EngineOf(), state.Value(), draws, steps, maxSteps) == result
        decreases maxSteps - steps
      {
        var stop := RunTurn(draws, steps, maxSteps, result);
        if stop {
          break;
        }
        steps := steps + 1;
      }
      totalTime, history := state.totalTime, state.history;
    }
  }
}
