/**
 * Properties of the trajectory engine, stated on the step function and the
 * run loop of module Trajectory.
 */
module TrajectoryProofs {
  import opened Wrappers
  import opened Chars
  import opened Configuration
  import opened Keyboard
  import Language
  import opened Trajectory
  import opened CleanRuns

  // ---------------------------------------------------------------------------
  // Divergence and the word context
  // ---------------------------------------------------------------------------

  /** An error exists exactly when the produced text is not a prefix of the target. */
  lemma FirstErrorIffNotPrefix(cur: string, t: string)
    ensures FirstErrorPos(cur, t) < |cur| <==> !IsPrefix(cur, t)
  {
    var p := FirstErrorPos(cur, t);
    if p < |cur| {
      if |cur| <= |t| {
        assert p < |t| && cur[p] != t[p];
      }
    } else {
      assert |cur| <= |t|;
      assert forall k :: 0 <= k < |cur| ==> cur[k] == t[k];
    }
  }

  /**
   * Past the end there is no word; otherwise the context is the slice
   * `t[start..end]` around the cursor that holds no space and cannot be
   * widened: each side ends at a space or at an end of the text.
   */
  lemma CurrentWordBounds(t: string, idx: nat) returns (start: nat, end: nat)
    ensures idx >= |t| ==> CurrentWord(t, idx) == None
    ensures idx < |t| ==>
      && start <= idx <= end <= |t|
      && CurrentWord(t, idx) == Some(t[start..end])
      && (forall k :: start <= k < end ==> t[k] != ' ')
      && (start == 0 || t[start - 1] == ' ')
      && (end == |t| || t[end] == ' ')
  {
    if idx < |t| {
      start, end := WordStart(t, idx), WordEnd(t, idx);
    } else {
      start, end := |t|, |t|;
    }
  }

  /** At a space the context is the word just before it. */
  lemma WordContextAtSpace()
    ensures CurrentWord("the cat", 1) == Some("the")
    ensures CurrentWord("the cat", 3) == Some("the")
    ensures CurrentWord("the cat", 7) == None
  {
    assert WordStart("the cat", 1) == 0;
    assert WordEnd("the cat", 1) == 3;
    assert WordStart("the cat", 3) == 0;
    assert WordEnd("the cat", 3) == 3;
    assert "the cat"[0..3] == "the";
  }

  // ---------------------------------------------------------------------------
  // Construction
  // ---------------------------------------------------------------------------

  lemma KeystrokeCountAppend(h: seq<Event>, ev: Event)
    ensures KeystrokeCount(h + [ev]) == KeystrokeCount(h) + (if IsKeystroke(ev.kind) then 1 else 0)
  {
    assert (h + [ev])[..|h|] == h;
  }

  /** The state right after construction satisfies the invariant whatever the engine. */
  lemma InitialSatisfiesInv(e: Engine, wpm: real)
    ensures Inv(e, Initial(wpm))
  {
    KeystrokeCountAppend([], Event(0.0, Init(wpm), ""));
    assert [] + [Event(0.0, Init(wpm), "")] == Initial(wpm).history;
  }

  /** A fresh typer: speed at least 10, a positive keystroke time, and the invariant. */
  lemma ConstructionEstablishesInv(cfg: Config, kb: Keyboard, target: string, targetWpm: real, z: real)
    requires cfg.Valid() && HasKeys(kb)
    ensures var w := SessionWpm(cfg, targetWpm, z);
      && w >= MinSessionWpm
      && BaseKeystrokeTime(cfg, w) > 0.0
      && Engine(cfg, kb, target, BaseKeystrokeTime(cfg, w)).Valid()
      && Initial(w).history == [Event(0.0, Init(w), "")]
      && Inv(Engine(cfg, kb, target, BaseKeystrokeTime(cfg, w)), Initial(w))
  {
    InitialSatisfiesInv(Engine(cfg, kb, target, BaseKeystrokeTime(cfg, SessionWpm(cfg, targetWpm, z))),
                        SessionWpm(cfg, targetWpm, z));
  }

  // ---------------------------------------------------------------------------
  // The correction decision
  // ---------------------------------------------------------------------------

  /** The rules apply in order; the first three need no draw. */
  lemma CorrectionRuleOrder(e: Engine, s: State, firstError: nat, lastWasBackspace: bool, notice: real)
    ensures lastWasBackspace ==> ShouldCorrect(e, s, firstError, lastWasBackspace, notice)
    ensures !lastWasBackspace && s.mentalCursor >= |e.target| ==> ShouldCorrect(e, s, firstError, lastWasBackspace, notice)
    ensures !lastWasBackspace && s.mentalCursor < |e.target| && |s.currentText| > 0 ==>
      var drift := |s.currentText| - firstError;
      ShouldCorrect(e, s, firstError, lastWasBackspace, notice) <==>
        || s.currentText[|s.currentText| - 1] in Boundaries
        || (drift >= 2 && notice < DriftNoticeProb)
        || (drift == 1 && notice < e.cfg.probNoticeError)
    ensures !lastWasBackspace && s.mentalCursor < |e.target| && s.currentText == [] ==>
      !ShouldCorrect(e, s, firstError, lastWasBackspace, notice)
  {
  }

  // ---------------------------------------------------------------------------
  // One step
  // ---------------------------------------------------------------------------

  /** Once the text is complete a step emits nothing and changes nothing. */
  lemma DoneStepIsIdle(e: Engine, s: State, d: StepDraws)
    requires e.Valid() && s.currentText == e.target
    ensures StepOf(e, s, d) == Outcome(s, None)
  {
  }

  /** When the rules pick a correction, the step is the correction. */
  lemma StepIsCorrection(e: Engine, s: State, d: StepDraws)
    requires e.Valid() && s.currentText != e.target
    requires FirstErrorPos(s.currentText, e.target) < |s.currentText|
    requires ShouldCorrect(e, s, FirstErrorPos(s.currentText, e.target), LastWasBackspace(s.history), d.notice)
    ensures StepOf(e, s, d) == Correction(e, s, LastWasBackspace(s.history), d)
  {
  }

  /** Otherwise, from the invariant, the cursor is inside the target and the step types. */
  lemma StepIsTyping(e: Engine, s: State, d: StepDraws)
    requires e.Valid() && Inv(e, s) && s.currentText != e.target
    requires !(FirstErrorPos(s.currentText, e.target) < |s.currentText|
               && ShouldCorrect(e, s, FirstErrorPos(s.currentText, e.target), LastWasBackspace(s.history), d.notice))
    ensures s.mentalCursor < |e.target|
    ensures StepOf(e, s, d) == TypeNext(e, s, d)
  {
    var fe := FirstErrorPos(s.currentText, e.target);
    FirstErrorIffNotPrefix(s.currentText, e.target);
    if fe >= |s.currentText| {
      assert |s.currentText| < |e.target|;
    }
  }

  lemma CorrectionKeepsInv(e: Engine, s: State, lb: bool, d: StepDraws)
    requires Inv(e, s) && |s.currentText| > 0
    ensures Inv(e, Correction(e, s, lb, d).next)
    ensures Correction(e, s, lb, d).event.Some?
    ensures Correction(e, s, lb, d).next.history == s.history + [Correction(e, s, lb, d).event.value]
  {
    KeystrokeCountAppend(s.history, Correction(e, s, lb, d).event.value);
  }

  lemma KeystrokeKeepsInv(e: Engine, s: State, kind: Kind, d: StepDraws)
    requires Inv(e, s) && s.mentalCursor < |e.target| && IsKeystroke(kind)
    ensures var o := Keystroke(e, Tired(e, s), kind, d);
      && Inv(e, o.next)
      && o.event.Some? && o.event.value.kind == kind
      && o.next.history == s.history + [o.event.value]
  {
    var o := Keystroke(e, Tired(e, s), kind, d);
    KeystrokeCountAppend(s.history, o.event.value);
  }

  lemma TypeNextKeepsInv(e: Engine, s: State, d: StepDraws)
    requires e.Valid() && Inv(e, s) && s.mentalCursor < |e.target|
    ensures Inv(e, TypeNext(e, s, d).next)
    ensures TypeNext(e, s, d).event.Some? && IsKeystroke(TypeNext(e, s, d).event.value.kind)
    ensures TypeNext(e, s, d).next.history == s.history + [TypeNext(e, s, d).event.value]
  {
    KeystrokeKeepsInv(e, s, ChooseKey(e, s.mentalCursor, d), d);
  }

  /** The typing phase is the keystroke of the chosen key, one fatigue factor later. */
  lemma TypeNextUnfold(e: Engine, s: State, d: StepDraws)
    requires e.Valid() && s.mentalCursor < |e.target|
    ensures TypeNext(e, s, d) == Keystroke(e, Tired(e, s), ChooseKey(e, s.mentalCursor, d), d)
  {
  }

  /** From the invariant, every step keeps it and appends exactly the event it emits. */
  lemma StepPreservesInv(e: Engine, s: State, d: StepDraws)
    requires e.Valid() && Inv(e, s)
    ensures Inv(e, StepOf(e, s, d).next)
    ensures StepOf(e, s, d).event.None? <==> s.currentText == e.target
    ensures StepOf(e, s, d).event.None? ==> StepOf(e, s, d).next == s
    ensures StepOf(e, s, d).event.Some? ==>
      StepOf(e, s, d).next.history == s.history + [StepOf(e, s, d).event.value]
  {
    if s.currentText != e.target {
      var fe := FirstErrorPos(s.currentText, e.target);
      var lb := LastWasBackspace(s.history);
      if fe < |s.currentText| && ShouldCorrect(e, s, fe, lb, d.notice) {
        StepIsCorrection(e, s, d);
        CorrectionKeepsInv(e, s, lb, d);
      } else {
        StepIsTyping(e, s, d);
        TypeNextKeepsInv(e, s, d);
      }
    }
  }

  /** A correction: when it happens, and what it does to the text and the clock. */
  lemma CorrectionStep(e: Engine, s: State, d: StepDraws)
    requires e.Valid() && Inv(e, s)
    ensures var o := StepOf(e, s, d);
      var fe := FirstErrorPos(s.currentText, e.target);
      var lb := LastWasBackspace(s.history);
      && ((o.event.Some? && o.event.value.kind.Backspace?) <==>
          (fe < |s.currentText| && ShouldCorrect(e, s, fe, lb, d.notice)))
      && (o.event.Some? && o.event.value.kind.Backspace? ==>
          && |s.currentText| >= 1
          && o.next.currentText == s.currentText[..|s.currentText| - 1]
          && fe <= |o.next.currentText|
          && o.next.currentText[..fe] == s.currentText[..fe]
          && o.next.mentalCursor == |o.next.currentText|
          && o.event.value.snapshot == o.next.currentText
          && o.next.fatigue == s.fatigue
          && o.next.lastCharTyped == s.lastCharTyped
          && (lb ==> o.next.totalTime == s.totalTime + BackspaceTime(e.cfg, d.backspaceZ))
          && (!lb ==> o.next.totalTime >= s.totalTime + MinReaction + BackspaceTime(e.cfg, d.backspaceZ)))
  {
    var fe := FirstErrorPos(s.currentText, e.target);
    var lb := LastWasBackspace(s.history);
    if s.currentText != e.target {
      if fe < |s.currentText| && ShouldCorrect(e, s, fe, lb, d.notice) {
        StepIsCorrection(e, s, d);
      } else {
        StepIsTyping(e, s, d);
        TypeNextKeepsInv(e, s, d);
      }
    }
  }

  /** The key chosen: the intended one, the next one of the word, or a key of the keyboard. */
  lemma ChooseKeyFacts(e: Engine, mc: nat, d: StepDraws)
    requires e.Valid() && WellFormed(e.kb) && mc < |e.target|
    ensures var k := ChooseKey(e, mc, d);
      && (k.Typed? ==> k.c == e.target[mc])
      && (k.TypedSwap? ==>
            mc + 1 < |e.target| && k.c == e.target[mc + 1] && k.c != ' ' && k.c != e.target[mc]
            && d.swap < e.cfg.probSwapError)
      && (k.TypedError? ==>
            k.c in Flat(e.kb.grid) && d.error < ErrorProbability(e, mc, e.target[mc])
            && (NeighborKeys(e.kb, e.target[mc]) != [] ==> k.c in NeighborKeys(e.kb, e.target[mc])))
  {
    RandomNeighborOnKeyboard(e.kb, e.target[mc], d.neighborPick);
  }

  /** Pressing a key appends its character, moves the cursor by one, and takes at least 0.02 s. */
  lemma KeystrokeEffects(e: Engine, s: State, kind: Kind, d: StepDraws)
    requires IsKeystroke(kind)
    ensures var o := Keystroke(e, s, kind, d);
      && o.event.Some? && o.event.value.kind == kind
      && o.next.currentText == s.currentText + [kind.c]
      && o.event.value.snapshot == o.next.currentText
      && o.event.value.time == o.next.totalTime
      && o.next.mentalCursor == s.mentalCursor + 1
      && o.next.lastCharTyped == Some(kind.c)
      && o.next.fatigue == s.fatigue
      && o.next.totalTime >= s.totalTime + MinKeystroke
  {
  }

  /** A typing step: one character, one cursor move, one fatigue factor, at least 0.02 s. */
  lemma TypingStep(e: Engine, s: State, d: StepDraws)
    requires e.Valid() && Inv(e, s)
    ensures var o := StepOf(e, s, d);
      var mc := s.mentalCursor;
      o.event.Some? && IsKeystroke(o.event.value.kind) ==>
        var k := o.event.value.kind;
        && mc < |e.target|
        && k == ChooseKey(e, mc, d)
        && o.next.currentText == s.currentText + [k.c]
        && o.next.mentalCursor == mc + 1
        && o.next.lastCharTyped == Some(k.c)
        && o.next.fatigue == s.fatigue * e.cfg.fatigueFactor
        && o.next.totalTime >= s.totalTime + MinKeystroke
  {
    if s.currentText != e.target {
      var fe := FirstErrorPos(s.currentText, e.target);
      var lb := LastWasBackspace(s.history);
      if fe < |s.currentText| && ShouldCorrect(e, s, fe, lb, d.notice) {
        StepIsCorrection(e, s, d);
      } else {
        StepIsTyping(e, s, d);
        TypeNextEffects(e, s, d);
      }
    }
  }

  /** The typing phase: the chosen key is pressed, after one more fatigue factor. */
  lemma TypeNextEffects(e: Engine, s: State, d: StepDraws)
    requires e.Valid() && s.mentalCursor < |e.target|
    ensures var o := TypeNext(e, s, d);
      var k := ChooseKey(e, s.mentalCursor, d);
      && o.event.Some? && o.event.value.kind == k
      && o.next.currentText == s.currentText + [k.c]
      && o.event.value.snapshot == o.next.currentText
      && o.event.value.time == o.next.totalTime
      && o.next.mentalCursor == s.mentalCursor + 1
      && o.next.lastCharTyped == Some(k.c)
      && o.next.fatigue == s.fatigue * e.cfg.fatigueFactor
      && o.next.totalTime >= s.totalTime + MinKeystroke
  {
    KeystrokeEffects(e, Tired(e, s), ChooseKey(e, s.mentalCursor, d), d);
  }

  /** With a nonnegative backspace sample the clock never runs backwards. */
  lemma StepKeepsChronological(e: Engine, s: State, d: StepDraws)
    requires e.Valid() && Inv(e, s) && Chronological(s.history)
    requires BackspaceTime(e.cfg, d.backspaceZ) >= 0.0
    ensures Chronological(StepOf(e, s, d).next.history)
    ensures StepOf(e, s, d).next.totalTime >= s.totalTime
  {
    StepPreservesInv(e, s, d);
    CorrectionStep(e, s, d);
    TypingStep(e, s, d);
    var h := StepOf(e, s, d).next.history;
    if |h| > |s.history| {
      assert h[..|s.history|] == s.history;
    }
  }

  /**
   * The backspace duration is a Normal sample that is not floored, so with
   * the shipped configuration a sample more than six deviations below the
   * mean moves the clock backwards during a backspace streak.
   */
  lemma BackspaceCanRewindClock(e: Engine, s: State, d: StepDraws)
    requires e.cfg == Default && |s.currentText| > 0 && d.backspaceZ == -7.0
    ensures Correction(e, s, true, d).next.totalTime < s.totalTime
  {
    assert BackspaceTime(e.cfg, d.backspaceZ) == 0.12 + 0.02 * -7.0;
  }

  // ---------------------------------------------------------------------------
  // Substitution probability
  // ---------------------------------------------------------------------------

  /** The substitution chance lies between half and three times the base rate. */
  lemma ErrorProbabilityBounds(e: Engine, mc: nat, intended: char)
    requires e.cfg.probError >= 0.0
    ensures 0.5 * e.cfg.probError <= ErrorProbability(e, mc, intended) <= 3.0 * e.cfg.probError
    ensures IsComposedAccent(e.kb, intended) ==> ErrorProbability(e, mc, intended) >= e.cfg.probError
  {
  }

  // ---------------------------------------------------------------------------
  // Keystroke duration
  // ---------------------------------------------------------------------------

  /** A frequent bigram takes its boost whatever the keys' distance. */
  lemma BigramExcludesDistance(e: Engine, a: char, c: char)
    requires Language.IsCommonBigram(a, c)
    ensures PairFactor(e, Some(a), c) == e.cfg.speedBoostBigram
  {
  }

  /** An unmapped key gets neither the close-key nor the far-key factor. */
  lemma SentinelGetsNoDistanceFactor(e: Engine, a: char, c: char)
    requires !Language.IsCommonBigram(a, c)
    requires KeyCell(e.kb, a).None? || KeyCell(e.kb, c).None?
    ensures PairFactor(e, Some(a), c) == 1.0
  {
    DistanceProperties(e.kb, a, c);
  }

  /** At most one additive penalty applies, in the order space, composed, direct, uppercase. */
  lemma PenaltyPriority(e: Engine, c: char, z: real)
    ensures c == ' ' ==> Penalty(e, c, z) == e.cfg.timeSpacePauseMean + e.cfg.timeSpacePauseStd * z
    ensures c != ' ' && IsComposedAccent(e.kb, c) ==> Penalty(e, c, z) == e.cfg.timeComposedAccentPenalty
    ensures c != ' ' && !IsComposedAccent(e.kb, c) && IsDirectAccent(e.kb, c) ==>
      Penalty(e, c, z) == e.cfg.timeDirectAccentPenalty
    ensures c != ' ' && !IsComposedAccent(e.kb, c) && !IsDirectAccent(e.kb, c) && IsUpper(c) ==>
      Penalty(e, c, z) == e.cfg.timeUppercasePenalty
    ensures c != ' ' && !IsComposedAccent(e.kb, c) && !IsDirectAccent(e.kb, c) && !IsUpper(c) ==>
      Penalty(e, c, z) == 0.0
  {
  }

  /** The word factor is read at the mental cursor: inside "the cat", "the" is a common word. */
  lemma WordFactorAtCursor(cfg: Config)
    ensures WordFactor(cfg, CurrentWord("the cat", 3)) == cfg.speedBoostCommonWord
    ensures WordFactor(cfg, CurrentWord("the cat", 7)) == 1.0
  {
    WordContextAtSpace();
    TheIsCommon();
    CommonWordFactor(cfg, "the");
  }

  lemma CommonWordFactor(cfg: Config, w: string)
    requires w != [] && Language.WordDifficulty(w) == Language.Common
    ensures WordFactor(cfg, Some(w)) == cfg.speedBoostCommonWord
  {
  }

  lemma TheIsCommon()
    ensures Language.WordDifficulty("the") == Language.Common
  {
    Language.NormalizedOfLowerWord("the");
    assert Language.IsCommonWord("the");
  }

  // ---------------------------------------------------------------------------
  // A run
  // ---------------------------------------------------------------------------

  /** One turn of the loop. */
  lemma RunLoopStep(e: Engine, s: State, draws: nat -> StepDraws, steps: nat, maxSteps: nat)
    requires e.Valid() && steps <= maxSteps
    ensures StepOf(e, s, draws(steps)).event.None? || steps + 1 > maxSteps ==>
      RunLoop(e, s, draws, steps, maxSteps) == StepOf(e, s, draws(steps)).next
    ensures StepOf(e, s, draws(steps)).event.Some? && steps + 1 <= maxSteps ==>
      RunLoop(e, s, draws, steps, maxSteps) == RunLoop(e, StepOf(e, s, draws(steps)).next, draws, steps + 1, maxSteps)
  {
  }

  /** The loop keeps the invariant, only appends to the log, and stops within budget. */
  lemma {:induction false} RunLoopBounds(e: Engine, s: State, draws: nat -> StepDraws, steps: nat, maxSteps: nat)
    requires e.Valid() && Inv(e, s) && steps <= maxSteps
    ensures var r := RunLoop(e, s, draws, steps, maxSteps);
      && Inv(e, r)
      && s.history <= r.history
      && |r.history| <= |s.history| + (maxSteps - steps) + 1
      && (r.currentText != e.target ==> |r.history| == |s.history| + (maxSteps - steps) + 1)
    decreases maxSteps - steps
  {
    var o := StepOf(e, s, draws(steps));
    StepPreservesInv(e, s, draws(steps));
    if o.event.Some? && steps + 1 <= maxSteps {
      RunLoopBounds(e, o.next, draws, steps + 1, maxSteps);
    }
  }

  /** A run from construction logs at most 10 events per target character, plus INIT and one. */
  lemma RunHistoryBound(e: Engine, wpm: real, draws: nat -> StepDraws)
    requires e.Valid()
    ensures var r := Run(e, Initial(wpm), draws);
      && Inv(e, r)
      && r.history[0] == Event(0.0, Init(wpm), "")
      && |r.history| <= BudgetPerChar * |e.target| + 2
      && (r.currentText != e.target ==> |r.history| == BudgetPerChar * |e.target| + 2)
  {
    InitialSatisfiesInv(e, wpm);
    RunLoopBounds(e, Initial(wpm), draws, 0, Budget(e.target));
    assert Initial(wpm).history <= Run(e, Initial(wpm), draws).history;
  }

  /** Nonnegative backspace samples give a log in time order. */
  lemma {:induction false} RunLoopChronological(e: Engine, s: State, draws: nat -> StepDraws, steps: nat, maxSteps: nat)
    requires e.Valid() && Inv(e, s) && steps <= maxSteps && Chronological(s.history)
    requires forall n :: BackspaceTime(e.cfg, draws(n).backspaceZ) >= 0.0
    ensures Chronological(RunLoop(e, s, draws, steps, maxSteps).history)
    decreases maxSteps - steps
  {
    var o := StepOf(e, s, draws(steps));
    StepPreservesInv(e, s, draws(steps));
    StepKeepsChronological(e, s, draws(steps));
    if o.event.Some? && steps + 1 <= maxSteps {
      RunLoopChronological(e, o.next, draws, steps + 1, maxSteps);
    }
  }

  // ---------------------------------------------------------------------------
  // A run without slips
  // ---------------------------------------------------------------------------

  lemma PrefixExtends(t: string, n: nat)
    requires n < |t|
    ensures t[..n + 1] == t[..n] + [t[n]]
  {
  }

  /** Without slips, a correct prefix grows by the next target character. */
  lemma CleanStep(e: Engine, s: State, d: StepDraws)
    requires e.Valid() && Inv(e, s) && IsPrefix(s.currentText, e.target) && s.currentText != e.target
    requires NoSlips(e, d) && e.cfg.probError >= 0.0
    ensures var o := StepOf(e, s, d);
      && o.event == Some(Event(o.next.totalTime, Typed(e.target[|s.currentText|]), o.next.currentText))
      && o.next.currentText == e.target[..|s.currentText| + 1]
      && |o.next.currentText| == |s.currentText| + 1
      && IsPrefix(o.next.currentText, e.target)
      && o.next.history == s.history + [o.event.value]
      && Inv(e, o.next)
  {
    StepPreservesInv(e, s, d);
    var n := |s.currentText|;
    assert s.currentText == e.target[..n];
    PrefixExtends(e.target, n);
    FirstErrorIffNotPrefix(s.currentText, e.target);
    assert n < |e.target|;
    StepIsTyping(e, s, d);
    ErrorProbabilityBounds(e, n, e.target[n]);
    assert ChooseKey(e, n, d) == Typed(e.target[n]);
    TypeNextEffects(e, s, d);
  }

  /** A TYPED event for the next target character keeps the log typed so far. */
  lemma TypedSoFarExtend(t: string, h: seq<Event>, ev: Event)
    requires |h| >= 1 && |h| <= |t| && TypedSoFar(t, h)
    requires ev.kind == Typed(t[|h| - 1]) && ev.snapshot == t[..|h|]
    ensures TypedSoFar(t, h + [ev])
  {
    assert (h + [ev])[..|h|] == h;
  }

  /** The i-th entry of a log typed so far types the i-th target character. */
  lemma {:induction false} TypedSoFarAt(t: string, h: seq<Event>, i: nat)
    requires TypedSoFar(t, h) && 1 <= i < |h|
    ensures i <= |t| && h[i].kind == Typed(t[i - 1]) && h[i].snapshot == t[..i]
    decreases |h|
  {
    if i < |h| - 1 {
      TypedSoFarAt(t, h[..|h| - 1], i);
    }
  }

  /** Once the target is typed, the loop stops at once and changes nothing. */
  lemma DoneLoopIsIdle(e: Engine, s: State, draws: nat -> StepDraws, steps: nat, maxSteps: nat)
    requires e.Valid() && steps <= maxSteps && s.currentText == e.target
    ensures RunLoop(e, s, draws, steps, maxSteps) == s
  {
    DoneStepIsIdle(e, s, draws(steps));
    RunLoopStep(e, s, draws, steps, maxSteps);
  }

  /**
   * Without slips the loop types the rest of the target, one TYPED event per
   * character. The precondition is stated as a single fact so that a caller
   * holding `CleanFrom` discharges it at once rather than conjunct by conjunct.
   */
  lemma {:induction false} CleanRunLoop(e: Engine, s: State, draws: nat -> StepDraws, steps: nat, maxSteps: nat)
    requires CleanFrom(e, s, draws, steps, maxSteps) == true
    ensures TypedAll(e.target, RunLoop(e, s, draws, steps, maxSteps))
    decreases maxSteps - steps, 2
  {
    if s.currentText == e.target {
      DoneLoopIsIdle(e, s, draws, steps, maxSteps);
    } else if steps + 1 <= maxSteps {
      CleanRunTurn(e, s, draws, steps, maxSteps);
    } else {
      CleanLastTurn(e, s, draws, steps, maxSteps);
    }
  }

  /** One clean keystroke with budget left, then the rest of the target. */
  lemma {:induction false} CleanRunTurn(e: Engine, s: State, draws: nat -> StepDraws, steps: nat, maxSteps: nat)
    requires CleanFrom(e, s, draws, steps, maxSteps) && s.currentText != e.target && steps + 1 <= maxSteps
    ensures TypedAll(e.target, RunLoop(e, s, draws, steps, maxSteps))
    decreases maxSteps - steps, 1
  {
    var next := CleanTurn(e, s, draws, steps, maxSteps);
    CleanRunLoop(e, next, draws, steps + 1, maxSteps);
    RunLoopStep(e, s, draws, steps, maxSteps);
    SameTypedAll(e.target, RunLoop(e, s, draws, steps, maxSteps), RunLoop(e, next, draws, steps + 1, maxSteps));
  }

  /** A slip-free turn with budget left emits an event and leaves the loop on track. */
  lemma CleanTurn(e: Engine, s: State, draws: nat -> StepDraws, steps: nat, maxSteps: nat) returns (next: State)
    requires CleanFrom(e, s, draws, steps, maxSteps) && s.currentText != e.target && steps + 1 <= maxSteps
    ensures StepOf(e, s, draws(steps)).event.Some? && next == StepOf(e, s, draws(steps)).next
    ensures CleanFrom(e, next, draws, steps + 1, maxSteps)
  {
    var o := StepOf(e, s, draws(steps));
    CleanStep(e, s, draws(steps));
    TypedSoFarExtend(e.target, s.history, o.event.value);
    next := o.next;
  }

  /** With the budget spent, the one missing character is still typed. */
  lemma CleanLastTurn(e: Engine, s: State, draws: nat -> StepDraws, steps: nat, maxSteps: nat)
    requires CleanFrom(e, s, draws, steps, maxSteps) && s.currentText != e.target && steps == maxSteps
    ensures TypedAll(e.target, RunLoop(e, s, draws, steps, maxSteps))
  {
    var o := StepOf(e, s, draws(steps));
    CleanStep(e, s, draws(steps));
    RunLoopStep(e, s, draws, steps, maxSteps);
    TypedSoFarExtend(e.target, s.history, o.event.value);
    assert |s.currentText| + 1 == |e.target|;
    assert o.next.currentText == e.target;
    SameTypedAll(e.target, RunLoop(e, s, draws, steps, maxSteps), o.next);
  }

  /** Equal states are typed alike. */
  lemma SameTypedAll(t: string, r: State, r': State)
    requires r == r' && TypedAll(t, r')
    ensures TypedAll(t, r)
  {
  }

  /**
   * From construction, a run without slips ends with the target: after the
   * INIT entry, the i-th event types the i-th target character and shows
   * the first i characters; there is nothing else in the log.
   */
  lemma CleanRun(e: Engine, wpm: real, draws: nat -> StepDraws)
    requires e.Valid() && e.cfg.probError >= 0.0
    requires forall n :: NoSlips(e, draws(n))
    ensures var r := Run(e, Initial(wpm), draws);
      && r.currentText == e.target
      && |r.history| == |e.target| + 1
      && r.history[0] == Event(0.0, Init(wpm), "")
      && (forall i :: 1 <= i < |r.history| ==>
            r.history[i].kind == Typed(e.target[i - 1]) && r.history[i].snapshot == e.target[..i])
  {
    InitialSatisfiesInv(e, wpm);
    CleanRunLoop(e, Initial(wpm), draws, 0, Budget(e.target));
    RunHistoryBound(e, wpm, draws);
    var r := Run(e, Initial(wpm), draws);
    forall i | 1 <= i < |r.history|
      ensures r.history[i].kind == Typed(e.target[i - 1]) && r.history[i].snapshot == e.target[..i]
    {
      TypedSoFarAt(e.target, r.history, i);
    }
  }
}
