/**
 * The tuning constants of the typing model, gathered into one immutable
 * value that the engine receives at construction instead of reading
 * module-level globals.
 */
module Configuration {

  datatype Config = Config(
    defaultWpm: real,
    wpmStd: real,
    avgWordLength: real,
    probError: real,
    probSwapError: real,
    probNoticeError: real,
    probNoticeErrorLate: real,
    speedBoostCommonWord: real,
    speedPenaltyComplexWord: real,
    speedBoostCloseKeys: real,
    speedBoostBigram: real,
    timeKeystrokeStd: real,
    timeBackspaceMean: real,
    timeBackspaceStd: real,
    timeArrowMean: real,
    timeArrowStd: real,
    timeReactionMean: real,
    timeReactionStd: real,
    timeDirectAccentPenalty: real,
    timeComposedAccentPenalty: real,
    timeUppercasePenalty: real,
    timeSpacePauseMean: real,
    timeSpacePauseStd: real,
    fatigueFactor: real)
  {
    /** What the engine needs of a configuration: a positive word length divides the base interval. */
    predicate Valid() {
      avgWordLength > 0.0
    }
  }

  /** The shipped defaults. */
  const Default: Config := Config(
    defaultWpm := 60.0,
    wpmStd := 10.0,
    avgWordLength := 5.0,
    probError := 0.04,
    probSwapError := 0.015,
    probNoticeError := 0.85,
    probNoticeErrorLate := 0.99,
    speedBoostCommonWord := 0.6,
    speedPenaltyComplexWord := 1.3,
    speedBoostCloseKeys := 0.5,
    speedBoostBigram := 0.4,
    timeKeystrokeStd := 0.03,
    timeBackspaceMean := 0.12,
    timeBackspaceStd := 0.02,
    timeArrowMean := 0.15,
    timeArrowStd := 0.03,
    timeReactionMean := 0.35,
    timeReactionStd := 0.1,
    timeDirectAccentPenalty := 0.15,
    timeComposedAccentPenalty := 0.4,
    timeUppercasePenalty := 0.2,
    timeSpacePauseMean := 0.25,
    timeSpacePauseStd := 0.05,
    fatigueFactor := 1.0005)

  lemma DefaultIsValid()
    ensures Default.Valid() && Default.fatigueFactor > 1.0
  {
  }
}
