/**
 * Predicates describing a run whose draws never trigger a slip: the
 * conditions under which the loop is on track, and the shape of the log
 * such a run writes.
 */
module CleanRuns {
  import opened Trajectory

  /** Draws that trigger neither a swap nor a substitution. */
  predicate NoSlips(e: Engine, d: StepDraws) {
    d.swap >= e.cfg.probSwapError && d.error >= 3.0 * e.cfg.probError
  }

  /** The loop is at a correct prefix, on draws without slips, with budget left for the rest of the target,
   * and so far it has logged one TYPED event per character. */
  ghost predicate CleanFrom(e: Engine, s: State, draws: nat -> StepDraws, steps: nat, maxSteps: nat) {
    && e.Valid() && Inv(e, s) && IsPrefix(s.currentText, e.target)
    && steps <= maxSteps && steps + (|e.target| - |s.currentText|) <= maxSteps + 1
    && (forall n :: NoSlips(e, draws(n)))
    && e.cfg.probError >= 0.0
    && |s.history| == |s.currentText| + 1 && TypedSoFar(e.target, s.history)
  }

  /** After the INIT entry, the i-th event of `h` types the i-th target character and shows the first i characters. */
  ghost predicate TypedSoFar(t: string, h: seq<Event>)
    decreases |h|
  {
    |h| <= 1 ||
      (&& |h| - 1 <= |t|
       && h[|h| - 1].kind == Typed(t[|h| - 2])
       && h[|h| - 1].snapshot == t[..|h| - 1]
       && TypedSoFar(t, h[..|h| - 1]))
  }

  /** The whole target is typed, one TYPED event per character after the INIT entry. */
  ghost predicate TypedAll(t: string, r: State) {
    r.currentText == t && |r.history| == |t| + 1 && TypedSoFar(t, r.history)
  }
}
