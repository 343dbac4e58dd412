/**
 * The trajectory engine of `MarkovTyper` as functions on values: one step
 * maps the typing state and the random draws of that step to the next
 * state and the event emitted, if any; a run iterates steps under a budget.
 *
 * Every random quantity is an input. Uniform draws are reals compared with
 * probabilities; a Normal(mean, std) sample is written `mean + std * z` for
 * a supplied standard-normal `z`; a uniform choice from a list is an index.
 * Equal draws therefore give equal trajectories.
 */
module Trajectory {
  import opened Wrappers
  import opened Chars
  import opened Configuration
  import opened Keyboard
  import Language

  datatype Kind = Init(wpm: real) | Typed(c: char) | TypedError(c: char) | TypedSwap(c: char) | Backspace

  /** One `history` entry: the clock after the event, what happened, the text after it. */
  datatype Event = Event(time: real, kind: Kind, snapshot: string)

  /** A character was typed: correctly, by substitution, or by anticipation. */
  predicate IsKeystroke(k: Kind) {
    k.Typed? || k.TypedError? || k.TypedSwap?
  }

  /** The random draws one step may consume. */
  datatype StepDraws = StepDraws(
    notice: real,       // uniform: the drift and immediate-notice checks
    reactionZ: real,    // standard normal behind the reaction delay
    backspaceZ: real,   // standard normal behind the backspace duration
    swap: real,         // uniform: the swap check
    error: real,        // uniform: the substitution check
    neighborPick: nat,  // index of the uniform choice of a wrong key
    spaceZ: real,       // standard normal behind the pause at a space
    keystrokeZ: real)   // standard normal behind the realised keystroke duration

  /** What a `MarkovTyper` fixes at construction; `Valid` is what the step function needs of it. */
  datatype Engine = Engine(cfg: Config, kb: Keyboard, target: string, baseKeystrokeTime: real) {
    predicate Valid() {
      cfg.Valid() && HasKeys(kb) && baseKeystrokeTime > 0.0
    }
  }

  /** The fields of `TypingState` other than the target text. */
  datatype State = State(
    currentText: string,
    totalTime: real,
    history: seq<Event>,
    lastCharTyped: Option<char>,
    fatigue: real,
    mentalCursor: nat)

  /** What one step produces. */
  datatype Outcome = Outcome(next: State, event: Option<Event>)

  /** Characters after which a pending error is always corrected. */
  const Boundaries: string := " \n\t.,;!?:()[]{}<>\"'"

  // Constants written inline in the engine rather than in the configuration.
  const MinSessionWpm: real := 10.0
  const DriftNoticeProb: real := 0.8
  const FarKeyFactor: real := 1.2
  const MinReaction: real := 0.1
  const MinKeystroke: real := 0.02
  const ComplexErrorFactor: real := 1.5
  const CommonErrorFactor: real := 0.5
  const ComposedErrorFactor: real := 2.0
  const BudgetPerChar: nat := 10

  function Max(a: real, b: real): real {
    if a >= b then a else b
  }

  // ---------------------------------------------------------------------------
  // Construction
  // ---------------------------------------------------------------------------

  /** The session speed: one Normal sample around the target speed, floored at 10. */
  function SessionWpm(cfg: Config, targetWpm: real, z: real): (w: real)
    ensures w >= MinSessionWpm
    ensures w >= targetWpm + cfg.wpmStd * z
  {
    Max(MinSessionWpm, targetWpm + cfg.wpmStd * z)
  }

  /** Seconds per keystroke at a given speed: 60 / (wpm * average word length). */
  function BaseKeystrokeTime(cfg: Config, wpm: real): (t: real)
    requires cfg.Valid() && wpm > 0.0
    ensures t > 0.0
    ensures t * wpm * cfg.avgWordLength == 60.0
  {
    60.0 / (wpm * cfg.avgWordLength)
  }

  /** The state right after construction: nothing typed, one INIT entry at time zero. */
  function Initial(wpm: real): State {
    State("", 0.0, [Event(0.0, Init(wpm), "")], None, 1.0, 0)
  }

  // ---------------------------------------------------------------------------
  // The word under the mental cursor
  // ---------------------------------------------------------------------------

  /** Where the word reaching position `i` starts: walk left until a space or the start. */
  function WordStart(t: string, i: nat): (s: nat)
    requires i <= |t|
    ensures s <= i
    ensures forall k :: s <= k < i ==> t[k] != ' '
    ensures s == 0 || t[s - 1] == ' '
  {
    if i > 0 && t[i - 1] != ' ' then WordStart(t, i - 1) else i
  }

  /** Where the word from position `i` ends: walk right until a space or the end. */
  function WordEnd(t: string, i: nat): (e: nat)
    requires i <= |t|
    ensures i <= e <= |t|
    ensures forall k :: i <= k < e ==> t[k] != ' '
    ensures e == |t| || t[e] == ' '
    decreases |t| - i
  {
    if i < |t| && t[i] != ' ' then WordEnd(t, i + 1) else i
  }

  /** `_get_current_word_context`: no word past the end; otherwise the space-free run around `idx`. */
  function CurrentWord(t: string, idx: nat): Option<string> {
    if idx >= |t| then None else Some(t[WordStart(t, idx)..WordEnd(t, idx)])
  }

  // ---------------------------------------------------------------------------
  // Divergence and the correction decision
  // ---------------------------------------------------------------------------

  /** The first index from `i` on where the texts differ, or the target length. */
  function FirstDiffFrom(cur: string, t: string, i: nat): (p: nat)
    requires i <= |cur| && i <= |t|
    ensures i <= p <= |t|
    ensures forall k :: i <= k < p && k < |cur| ==> cur[k] == t[k]
    ensures p < |t| ==> p < |cur| && cur[p] != t[p]
    decreases |t| - i
  {
    if i == |cur| || i == |t| then |t|
    else if cur[i] != t[i] then i
    else FirstDiffFrom(cur, t, i + 1)
  }

  /** `first_error_pos` of `step`. */
  function FirstErrorPos(cur: string, t: string): nat {
    FirstDiffFrom(cur, t, 0)
  }

  predicate IsPrefix(cur: string, t: string) {
    cur <= t
  }

  function LastWasBackspace(h: seq<Event>): bool {
    |h| > 0 && h[|h| - 1].kind.Backspace?
  }

  /** The ordered correction rules; the first that applies decides. */
  function ShouldCorrect(e: Engine, s: State, firstError: nat, lastWasBackspace: bool, notice: real): bool {
    if lastWasBackspace then true
    else if s.mentalCursor >= |e.target| then true
    else if |s.currentText| > 0 then
      var lastChar := s.currentText[|s.currentText| - 1];
      var drift := |s.currentText| - firstError;
      if lastChar in Boundaries then true
      else if drift >= 2 then notice < DriftNoticeProb
      else if drift == 1 then notice < e.cfg.probNoticeError
      else false
    else false
  }

  // ---------------------------------------------------------------------------
  // Durations
  // ---------------------------------------------------------------------------

  /** The reaction delay before the first backspace of a streak, floored at 0.1. */
  function ReactionTime(cfg: Config, z: real): (dt: real)
    ensures dt >= MinReaction
  {
    Max(MinReaction, cfg.timeReactionMean + cfg.timeReactionStd * z)
  }

  /** The backspace duration, not floored. */
  function BackspaceTime(cfg: Config, z: real): real {
    cfg.timeBackspaceMean + cfg.timeBackspaceStd * z
  }

  /** The speed factor of the word being typed. */
  function WordFactor(cfg: Config, word: Option<string>): real {
    if word.None? || word.value == "" then 1.0
    else match Language.WordDifficulty(word.value)
      case Common => cfg.speedBoostCommonWord
      case Complex => cfg.speedPenaltyComplexWord
      case Normal => 1.0
  }

  /** The speed factor of the key pair: a frequent bigram, else close or far keys. */
  function PairFactor(e: Engine, last: Option<char>, c: char): real {
    if last.None? then 1.0
    else if Language.IsCommonBigram(last.value, c) then e.cfg.speedBoostBigram
    else
      var d2 := SquaredDistance(e.kb, last.value, c);
      if 0 < d2 < 4 then e.cfg.speedBoostCloseKeys
      else if d2 > 16 then FarKeyFactor
      else 1.0
  }

  /** The additive delay of special characters, checked in priority order. */
  function Penalty(e: Engine, c: char, spaceZ: real): real {
    if c == ' ' then e.cfg.timeSpacePauseMean + e.cfg.timeSpacePauseStd * spaceZ
    else if IsComposedAccent(e.kb, c) then e.cfg.timeComposedAccentPenalty
    else if IsDirectAccent(e.kb, c) then e.cfg.timeDirectAccentPenalty
    else if IsUpper(c) then e.cfg.timeUppercasePenalty
    else 0.0
  }

  /** The mean duration of typing `c` in state `s`, before the final Normal sample. */
  function KeystrokeMean(e: Engine, s: State, c: char, spaceZ: real): real {
    e.baseKeystrokeTime * s.fatigue
      * WordFactor(e.cfg, CurrentWord(e.target, s.mentalCursor))
      * PairFactor(e, s.lastCharTyped, c)
      + Penalty(e, c, spaceZ)
  }

  /** `_calculate_keystroke_time`: the Normal sample around the mean, floored at 0.02. */
  function KeystrokeTime(e: Engine, s: State, c: char, spaceZ: real, z: real): (dt: real)
    ensures dt >= MinKeystroke
    ensures dt >= KeystrokeMean(e, s, c, spaceZ) + e.cfg.timeKeystrokeStd * z
  {
    Max(MinKeystroke, KeystrokeMean(e, s, c, spaceZ) + e.cfg.timeKeystrokeStd * z)
  }

  /** The chance of a substitution error on the character at the mental cursor. */
  function ErrorProbability(e: Engine, mc: nat, intended: char): real {
    var word := CurrentWord(e.target, mc);
    var p := e.cfg.probError;
    var p1 := match Language.WordDifficulty(if word.None? then "" else word.value)
      case Complex => p * ComplexErrorFactor
      case Common => p * CommonErrorFactor
      case Normal => p;
    if IsComposedAccent(e.kb, intended) then p1 * ComposedErrorFactor else p1
  }

  // ---------------------------------------------------------------------------
  // One step
  // ---------------------------------------------------------------------------

  /** Remove the last character and log a backspace. */
  function Correction(e: Engine, s: State, lastWasBackspace: bool, d: StepDraws): Outcome
    requires |s.currentText| > 0
  {
    var reacted := if lastWasBackspace then s.totalTime else s.totalTime + ReactionTime(e.cfg, d.reactionZ);
    var t := reacted + BackspaceTime(e.cfg, d.backspaceZ);
    var text := s.currentText[..|s.currentText| - 1];
    var ev := Event(t, Backspace, text);
    Outcome(s.(currentText := text, totalTime := t, history := s.history + [ev], mentalCursor := |text|), Some(ev))
  }

  /** Press the key of a keystroke event after the duration the model assigns to it. */
  function Keystroke(e: Engine, s: State, kind: Kind, d: StepDraws): Outcome
    requires IsKeystroke(kind)
  {
    var t := s.totalTime + KeystrokeTime(e, s, kind.c, d.spaceZ, d.keystrokeZ);
    var text := s.currentText + [kind.c];
    var ev := Event(t, kind, text);
    Outcome(s.(currentText := text, totalTime := t, history := s.history + [ev],
               lastCharTyped := Some(kind.c), mentalCursor := s.mentalCursor + 1), Some(ev))
  }

  /** Which key the typist presses at the mental cursor: a swap, a substitution or the intended one. */
  function ChooseKey(e: Engine, mc: nat, d: StepDraws): (k: Kind)
    requires e.Valid() && mc < |e.target|
    ensures IsKeystroke(k)
  {
    var intended := e.target[mc];
    if mc + 1 < |e.target| && e.target[mc + 1] != ' ' && e.target[mc + 1] != intended
       && d.swap < e.cfg.probSwapError then
      TypedSwap(e.target[mc + 1])
    else if d.error < ErrorProbability(e, mc, intended) then
      TypedError(RandomNeighbor(e.kb, intended, d.neighborPick))
    else
      Typed(intended)
  }

  /** The state once fatigue has grown by one factor. */
  function Tired(e: Engine, s: State): State {
    s.(fatigue := s.fatigue * e.cfg.fatigueFactor)
  }

  /** The typing phase: fatigue grows, then the chosen key is pressed. */
  function TypeNext(e: Engine, s: State, d: StepDraws): Outcome
    requires e.Valid() && s.mentalCursor < |e.target|
  {
    Keystroke(e, Tired(e, s), ChooseKey(e, s.mentalCursor, d), d)
  }

  /** `step`: done, else correct an error, else type. */
  function StepOf(e: Engine, s: State, d: StepDraws): Outcome
    requires e.Valid()
  {
    if s.currentText == e.target then Outcome(s, None)
    else
      var firstError := FirstErrorPos(s.currentText, e.target);
      var lastWasBackspace := LastWasBackspace(s.history);
      if firstError < |s.currentText| && ShouldCorrect(e, s, firstError, lastWasBackspace, d.notice) then
        Correction(e, s, lastWasBackspace, d)
      else
        var synced := if s.mentalCursor > |s.currentText| then s.(mentalCursor := |s.currentText|) else s;
        if synced.mentalCursor >= |e.target| then Outcome(synced, None)
        else TypeNext(e, synced, d)
  }

  // ---------------------------------------------------------------------------
  // A run
  // ---------------------------------------------------------------------------

  function Budget(t: string): nat {
    BudgetPerChar * |t|
  }

  /** `run` from its `steps` counter on: step until nothing is emitted or the counter passes the budget. */
  function RunLoop(e: Engine, s: State, draws: nat -> StepDraws, steps: nat, maxSteps: nat): State
    requires e.Valid() && steps <= maxSteps
    decreases maxSteps - steps
  {
    var o := StepOf(e, s, draws(steps));
    if o.event.None? then o.next
    else if steps + 1 > maxSteps then o.next
    else RunLoop(e, o.next, draws, steps + 1, maxSteps)
  }

  function Run(e: Engine, s: State, draws: nat -> StepDraws): State
    requires e.Valid()
  {
    RunLoop(e, s, draws, 0, Budget(e.target))
  }

  // ---------------------------------------------------------------------------
  // The invariant
  // ---------------------------------------------------------------------------

  function Power(x: real, n: nat): real {
    if n == 0 then 1.0 else Power(x, n - 1) * x
  }

  function KeystrokeCount(h: seq<Event>): nat {
    if h == [] then 0 else KeystrokeCount(h[..|h| - 1]) + (if IsKeystroke(h[|h| - 1].kind) then 1 else 0)
  }

  /**
   * What holds from construction on: the mental cursor is the produced
   * length and never passes the target; the log starts with its one INIT
   * entry and ends with the current text and clock; fatigue is the factor
   * raised to the number of characters typed.
   */
  predicate Inv(e: Engine, s: State) {
    && s.mentalCursor == |s.currentText| <= |e.target|
    && |s.history| >= 1
    && s.history[0] == Event(0.0, s.history[0].kind, "")
    && s.history[0].kind.Init?
    && (forall i :: 1 <= i < |s.history| ==> !s.history[i].kind.Init?)
    && s.history[|s.history| - 1].snapshot == s.currentText
    && s.history[|s.history| - 1].time == s.totalTime
    && s.fatigue == Power(e.cfg.fatigueFactor, KeystrokeCount(s.history))
  }

  /** Timestamps never decrease along the log. */
  predicate Chronological(h: seq<Event>) {
    forall i :: 0 <= i < |h| - 1 ==> h[i].time <= h[i + 1].time
  }
}
