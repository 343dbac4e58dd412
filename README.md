# HumanTyping, modelled in Dafny

HumanTyping simulates a person typing a target text. It produces the
keystroke trajectory a browser driver then replays. The engine `MarkovTyper`
(humantyping/typer.py) holds a `TypingState` and advances it one `step` at
a time. Each step does one of three things:

- it does nothing, once the text is complete;
- it deletes one character, after noticing an earlier mistake;
- it types one character. That character is the intended one, a swap with
  the next letter of the word, or a neighbouring key on the keyboard.

Every event goes into a `history` log with the clock value after it and the
full text it leaves. `run` repeats `step` until nothing is emitted or a budget
of ten steps per target character is used up. Keystroke durations depend on:

- the speed drawn for the session;
- fatigue, which compounds with each typed character;
- the difficulty of the word under the cursor (humantyping/language.py);
- the keyboard distance between consecutive keys (`KeyboardLayout`,
  humantyping/keyboard.py and src/keyboard.py);
- extra delays for spaces, accents and capitals.

The model has these modules:

- `Chars`: single-character case handling.
- `Language`: word difficulty and frequent bigrams.
- `Keyboard` and `KeyboardFacts`: layouts, the position map, neighbours,
  distances and the random wrong key, plus facts about the concrete layouts.
- `Configuration`: the tuning constants, as one immutable value.
- `Trajectory`: the engine as pure functions.
  - `StepOf` maps a state and the draws of one step to the next state and
    the emitted event.
  - `RunLoop`/`Run` iterate it under the budget.
  - `Inv` is the state invariant.
- `TrajectoryProofs` and `CleanRuns`: properties of those functions.
- `Typer`: the classes `TypingState` and `MarkovTyper`. Their methods update
  the state in place. Each one is proved to compute what the matching
  `Trajectory` function computes, so every property of the functions holds
  for the imperative code.

Randomness is an input. A step receives a `StepDraws` record:

- uniform reals, compared with probabilities;
- standard-normal values `z`, turned into Normal(mean, std) samples as
  `mean + std * z`;
- an index that selects a uniform choice from a list.

A run receives one record per step counter value. Equal draws therefore give
equal trajectories.

Accented characters are a parameter of the keyboard, an `Encoding`:

- `Keyboard.Intended` holds the accents written in src/keyboard.py.
- `Keyboard.AsEncoded` holds the code points humantyping/keyboard.py
  actually contains in the same places (see Findings).

## Model

| member | source | states |
|---|---|---|
| Chars.IsUpper | humantyping/typer.py:69 | `str.isupper` on one character: an ASCII or Latin-1 capital; the capital delay's priority is `PenaltyPriority` |
| Chars.Lower | humantyping/language.py:21 | lower-casing maps an ASCII or Latin-1 capital to its small letter (code point + 32), leaves every other character unchanged, and never yields a capital |
| Chars.LowerString | humantyping/language.py:31 | a lower-cased string has the same length and is lower-cased character by character |
| Language.StripLeft | humantyping/language.py:21 | the left half of `strip(".,!?;:")`; `StripLeftSpec` states what it removes |
| Language.StripRight | humantyping/language.py:21 | the right half of `strip(".,!?;:")`; `StripRightSpec` states what it removes |
| Language.Normalized | humantyping/language.py:21 | the word lower-cased, then stripped of punctuation at both ends; `NormalizedIsTrimmedSlice` states its shape |
| Language.IsCommonWord | humantyping/language.py:2-13 | membership in `COMMON_WORDS`; `ListedWordIsCommon` and `CapitalizedCommonWord` use it |
| Language.IsCommonBigram | humantyping/language.py:30-32 | the lower-cased pair is in `COMMON_BIGRAMS`; `BigramIgnoresCase` and `BigramIsOrdered` state its behaviour |
| Language.StripLeftSpec | humantyping/language.py:21 | the left strip removes exactly a prefix made of strip characters, and what remains does not start with one |
| Language.StripRightSpec | humantyping/language.py:21 | the right strip removes exactly a suffix made of strip characters, and what remains does not end with one |
| Language.NormalizedIsTrimmedSlice | humantyping/language.py:21 | the looked-up form of a word is a slice of the lower-cased word with only punctuation `.,!?;:` cut from either end, and it neither starts nor ends with punctuation |
| Language.WordDifficulty | humantyping/language.py:20-28 | "common" iff the normalised word is in the common-word set; "complex" iff it is not common and is longer than 8 or contains z, x, q or j; otherwise "normal" |
| Language.ListedWordIsCommon | humantyping/language.py:22-23 | a word whose normal form is listed is common |
| Language.CommonBeatsAwkward | humantyping/language.py:22-27 | "just" contains an awkward letter yet is common: the common-word test comes first |
| Language.CapitalizedCommonWord | humantyping/language.py:21-23 | case and trailing punctuation are removed before lookup: "The," is common |
| Language.CapitalizedAwkwardWord | humantyping/language.py:21-27 | "Quiz!" is complex: stripped and lower-cased, it holds q and z and is not listed |
| Language.EmptyWordIsNormal | humantyping/language.py:20-28 | the empty word is "normal" |
| Language.NormalMeansPlain | humantyping/language.py:24-28 | a normal word is not listed, is at most 8 characters once stripped, and has no awkward letter |
| Language.BigramIgnoresCase | humantyping/language.py:30-32 | the bigram test gives the same answer for the lower-cased pair |
| Language.BigramIsOrdered | humantyping/language.py:30-32 | the bigram test is case-insensitive but order-sensitive: ('T','H') and ('t','h') are frequent, ('h','t') is not |
| Configuration.DefaultIsValid | humantyping/config.py:8-39 | the shipped constants have a positive word length and a fatigue factor above 1 |
| Keyboard.LoadLayout | humantyping/keyboard.py:13-36 | every layout name gives a four-row grid with keys; any name other than "qwerty" and "azerty" gives the fallback grid instead of an error |
| Keyboard.Flat | humantyping/keyboard.py:104 | the grid read row by row; `FlatMembers` states what it holds |
| Keyboard.FlatMembers | humantyping/keyboard.py:104 | the flattened grid holds exactly the characters found at in-bounds cells |
| Keyboard.RowCells | humantyping/keyboard.py:41-42 | one row entered left to right into the dictionary; a later column overwrites an earlier one |
| Keyboard.PosMapOf | humantyping/keyboard.py:38-43 | `_build_pos_map`: the rows entered top to bottom; `PosMapOfCorrect` states its domain and values |
| Keyboard.PosMapOfCorrect | humantyping/keyboard.py:38-43 | the position map covers exactly the grid's characters; each maps to a cell holding it; for a repeated character, the last occurrence in row-major order wins |
| Keyboard.DistinctPositions | humantyping/keyboard.py:38-43 | in a grid without repeats, every character maps to its own cell |
| Keyboard.BuildPosMap | humantyping/keyboard.py:38-43 | the nested loops over rows and columns build the position map |
| Keyboard.KeyboardFor | humantyping/keyboard.py:4-11 | a constructed keyboard is well formed (its map is the grid's position map and the grid has keys) and carries the encoding's accent sets |
| Keyboard.NewKeyboard | humantyping/keyboard.py:4-11 | construction loads the layout, builds its map and fixes the accent sets, giving the keyboard `KeyboardFor` describes |
| Keyboard.IsDirectAccent | humantyping/keyboard.py:108-109 | membership in the direct-accent set; `DirectIsNotComposed` and `DirectAccentsOnAzerty` are about it |
| Keyboard.IsComposedAccent | humantyping/keyboard.py:111-112 | membership in the composed-accent set; `ComposedAccentNeighbors` and `ComposedAccentDistance` are about it |
| Keyboard.Normalize | humantyping/keyboard.py:84-88 | a composed accent becomes its base letter (or nothing), any other character is kept; `ComposedAccentActsAsBase` shows its effect |
| Keyboard.KeyCell | humantyping/keyboard.py:90-97 | the cell of the normalised character, if the map has it; `PlainKeyCell` states it for characters that are not composed accents |
| Keyboard.Neighbors | humantyping/keyboard.py:62-76 | the keys around a cell in offset order; `NeighborsCorrect` states which they are |
| Keyboard.NeighborKeys | humantyping/keyboard.py:45-76 | `get_neighbor_keys`: lower-case, reduce a composed accent, then the surrounding keys; `NeighborKeysCorrect` states its result |
| Keyboard.NeighborsCorrect | humantyping/keyboard.py:62-76 | at most 8 neighbours; each is the key of an in-bounds cell at Chebyshev distance 1 (bounds checked per row); no such key is missing |
| Keyboard.NeighborKeysCorrect | humantyping/keyboard.py:45-76 | a character without a cell (after lower-casing and accent reduction) has no neighbours; otherwise there are at most 8, all keys of the grid |
| Keyboard.ComposedAccentNeighbors | src/keyboard.py:47-56 | a composed accent has the neighbours of its base letter |
| Keyboard.GetNeighborKeys | humantyping/keyboard.py:45-76 | the loop over the eight offsets returns the neighbour list in offset order |
| Keyboard.SquaredDistance | humantyping/keyboard.py:78-99 | `get_distance` squared, with the squared sentinel 16; `DistanceProperties` and `SameRowNeighborsAtUnitDistance` state its values |
| Keyboard.DistanceProperties | humantyping/keyboard.py:78-99 | the distance is symmetric; it is the sentinel when either key has no cell; it is zero from a mapped key to itself |
| Keyboard.ComposedAccentDistance | src/keyboard.py:84-93 | a composed accent is at distance zero from its base letter |
| Keyboard.DistinctByRows | humantyping/keyboard.py:38-43 | a grid whose rows have no repeated key and share no key with each other has no repeated key at all |
| Keyboard.SameRowNeighborsAtUnitDistance | humantyping/keyboard.py:96-99 | two keys side by side in one row of a grid without repeats are at distance 1 |
| Keyboard.RandomNeighbor | humantyping/keyboard.py:101-106 | the wrong key is a neighbour when there are any, otherwise any key of the grid |
| Keyboard.RandomNeighborOnKeyboard | humantyping/keyboard.py:101-106 | whatever is drawn, the wrong key is a key of the keyboard |
| Keyboard.GetRandomNeighbor | humantyping/keyboard.py:101-106 | the method returns the key `RandomNeighbor` describes for the same draw |
| KeyboardFacts.UppercaseIsUnmappedOnQwerty | humantyping/keyboard.py:84-94 | the distance does not lower-case: ('T','h') on qwerty gets the sentinel |
| KeyboardFacts.QwertyNeighborsAtUnitDistance | humantyping/keyboard.py:96-99 | 'q' and 'w' on qwerty are one unit apart |
| KeyboardFacts.QwertyDistinct | humantyping/keyboard.py:14-21 | no key occurs twice on the qwerty grid |
| KeyboardFacts.FallbackDistinct | humantyping/keyboard.py:30-36 | no key occurs twice on the fallback grid |
| KeyboardFacts.AzertyIntendedDistinct | src/keyboard.py:22-29 | no key occurs twice on the azerty grid with the accents as intended |
| KeyboardFacts.NoComposedKeys | src/keyboard.py:10-36 | with the intended accents no key of any layout is a composed accent, so every key is located at its own cell |
| KeyboardFacts.ShippedRowNeighborsAtUnitDistance | src/keyboard.py:96-99 | on every shipped layout, with the intended accents, any two keys side by side in a row are at distance 1 |
| KeyboardFacts.LetterEIsMapped | humantyping/keyboard.py:13-36 | 'e' has a key in every layout |
| KeyboardFacts.LastOccurrence | humantyping/keyboard.py:38-43 | a character that does not occur after cell (r, c) owns that cell |
| KeyboardFacts.PlainKeyCell | humantyping/keyboard.py:84-93 | a character that is not a composed accent has a cell iff it is in the grid |
| KeyboardFacts.ComposedAccentActsAsBase | src/keyboard.py:52-56 | with the intended accents, 'ê' has the neighbours of 'e' and is at distance zero from it |
| KeyboardFacts.DirectAccentsOnAzerty | src/keyboard.py:22-29 | each direct accent has a key on azerty |
| KeyboardFacts.DirectAccentsOffQwerty | src/keyboard.py:14-21 | no direct accent has a key on qwerty, so its distances are the sentinel |
| KeyboardFacts.DirectIsNotComposed | src/keyboard.py:10-11 | the two accent sets are disjoint |
| KeyboardFacts.AsEncodedMissesAccents | humantyping/keyboard.py:10-36 | with the code points as written, on every layout (azerty included) 'ê' is not a composed accent, has no neighbours and gets the sentinel distance to 'e' |
| Trajectory.SessionWpm | humantyping/typer.py:24-25 | the session speed is at least 10 and at least the drawn sample |
| Trajectory.BaseKeystrokeTime | humantyping/typer.py:26 | the base interval is positive and is the one with interval · wpm · word length = 60 |
| Trajectory.Initial | humantyping/typer.py:22-28 | the state after construction: the default record with the INIT entry; `InitialSatisfiesInv` and `ConstructionEstablishesInv` are about it |
| Trajectory.WordStart | humantyping/typer.py:34-36 | the left walk stops at the start or just after a space, crossing no space |
| Trajectory.WordEnd | humantyping/typer.py:37-39 | the right walk stops at the end or at a space, crossing no space |
| Trajectory.CurrentWord | humantyping/typer.py:30-40 | `_get_current_word_context`; `CurrentWordBounds` characterises it |
| Trajectory.FirstDiffFrom | humantyping/typer.py:83-88 | the divergence point is the least index where the texts differ within both lengths, or the target length if there is none |
| Trajectory.FirstErrorPos | humantyping/typer.py:83-92 | the divergence point; `FirstErrorIffNotPrefix` relates it to the prefix test |
| Trajectory.LastWasBackspace | humantyping/typer.py:98-101 | the last log entry is a backspace |
| Trajectory.ShouldCorrect | humantyping/typer.py:96-129 | the correction decision; `CorrectionRuleOrder` states its rules in order |
| Trajectory.ReactionTime | humantyping/typer.py:133-135 | the reaction delay is at least 0.1 |
| Trajectory.BackspaceTime | humantyping/typer.py:138 | the unclamped backspace sample; `BackspaceCanRewindClock` shows it can be negative |
| Trajectory.WordFactor | humantyping/typer.py:45-51 | the speed factor of the word at the cursor; `WordFactorAtCursor` and `CommonWordFactor` state its values |
| Trajectory.PairFactor | humantyping/typer.py:53-61 | the speed factor of the key pair; `BigramExcludesDistance` and `SentinelGetsNoDistanceFactor` state its cases |
| Trajectory.Penalty | humantyping/typer.py:63-70 | the additive delay of a special character; `PenaltyPriority` states its priority |
| Trajectory.KeystrokeMean | humantyping/typer.py:42-71 | the base interval times fatigue, the word factor and the pair factor, plus the delay |
| Trajectory.KeystrokeTime | humantyping/typer.py:42-73 | a keystroke takes at least 0.02 s and at least its sampled duration |
| Trajectory.ErrorProbability | humantyping/typer.py:180-188 | the substitution chance; `ErrorProbabilityBounds` bounds it |
| Trajectory.ChooseKey | humantyping/typer.py:164-199 | the key pressed is a keystroke: typed, swapped or wrong |
| Trajectory.Correction | humantyping/typer.py:131-147 | the backspace branch of `step`; `CorrectionStep` states its effect |
| Trajectory.Keystroke | humantyping/typer.py:171-208 | pressing a chosen key; `KeystrokeEffects` states its effect |
| Trajectory.Tired | humantyping/typer.py:162 | fatigue multiplied by the fatigue factor |
| Trajectory.TypeNext | humantyping/typer.py:161-208 | the typing phase of `step`; `TypeNextEffects` and `TypeNextKeepsInv` are about it |
| Trajectory.StepOf | humantyping/typer.py:75-210 | `step` as a function of the state and the draws; `StepPreservesInv`, `DoneStepIsIdle`, `StepIsCorrection`, `StepIsTyping` and `TypingStep` state what it does |
| Trajectory.Budget | humantyping/typer.py:214 | ten steps per target character |
| Trajectory.RunLoop | humantyping/typer.py:212-219 | the `while` loop of `run` from a given counter; `RunLoopStep`, `RunLoopBounds` and `RunLoopChronological` state its behaviour |
| Trajectory.Run | humantyping/typer.py:212-219 | `run` from counter 0 with the budget; `RunHistoryBound` and `CleanRun` are about it |
| TrajectoryProofs.FirstErrorIffNotPrefix | humantyping/typer.py:83-95 | an error exists (divergence point < produced length) iff the produced text is not a prefix of the target |
| TrajectoryProofs.CurrentWordBounds | humantyping/typer.py:30-40 | no word past the end; otherwise the word is `target[start..end]` with start ≤ idx ≤ end, no space inside, and a space or an end of the text on each side |
| TrajectoryProofs.WordContextAtSpace | humantyping/typer.py:30-40 | in "the cat" the context at index 1 and at the space (3) is "the"; past the end there is none |
| TrajectoryProofs.InitialSatisfiesInv | humantyping/typer.py:22-28 | the freshly constructed state satisfies the invariant |
| TrajectoryProofs.ConstructionEstablishesInv | humantyping/typer.py:19-28 | after construction the speed is ≥ 10, the base interval is > 0, the log is exactly one INIT entry at 0.0 with empty text, and the invariant holds |
| TrajectoryProofs.CorrectionRuleOrder | humantyping/typer.py:98-129 | the correction rules apply first-match: backspace streak, cursor at the end, boundary character, drift ≥ 2 with draw < 0.8, drift 1 with draw < the notice probability; nothing on empty text |
| TrajectoryProofs.DoneStepIsIdle | humantyping/typer.py:77-78 | once the text equals the target, a step emits nothing and changes no field, the log included |
| TrajectoryProofs.StepIsCorrection | humantyping/typer.py:94-147 | when an error exists and the rules say so, the step is a correction |
| TrajectoryProofs.StepIsTyping | humantyping/typer.py:149-161 | otherwise, under the invariant, the cursor is inside the target, so the branches at lines 152-159 never fire and the step types |
| TrajectoryProofs.CorrectionKeepsInv | humantyping/typer.py:131-147 | a correction keeps the invariant and appends exactly its event |
| TrajectoryProofs.TypeNextKeepsInv | humantyping/typer.py:161-208 | a typing step keeps the invariant and appends exactly one keystroke event |
| TrajectoryProofs.StepPreservesInv | humantyping/typer.py:75-210 | from the invariant every step keeps it; it emits nothing iff the text is complete, and then changes nothing; otherwise it appends exactly the emitted event |
| TrajectoryProofs.CorrectionStep | humantyping/typer.py:131-147 | a backspace happens iff an error exists and the rules fire; it removes exactly the last character (which exists) and keeps the correct prefix; it sets the cursor to the new length and logs the new text; fatigue and the last typed key are unchanged; it adds the unclamped backspace sample, plus a reaction of at least 0.1 only when the previous action was not a backspace |
| TrajectoryProofs.ChooseKeyFacts | humantyping/typer.py:164-199 | a typed key is the intended character; a swap happens only if the next target character exists, is not a space, differs from the intended one and the draw is below the swap probability, and it types that character; a wrong key is a neighbour when there are any and a key of the keyboard in every case |
| TrajectoryProofs.KeystrokeEffects | humantyping/typer.py:171-208 | pressing a key appends its character, logs it with the new clock and text, moves the cursor by one, records it as last typed, and takes at least 0.02 s |
| TrajectoryProofs.TypeNextEffects | humantyping/typer.py:161-208 | the typing phase multiplies fatigue by the factor exactly once and then presses the chosen key |
| TrajectoryProofs.TypingStep | humantyping/typer.py:161-208 | a step that emits a keystroke types the chosen key at the cursor: one character, cursor + 1, last key set, fatigue × factor once, at least 0.02 s |
| TrajectoryProofs.StepKeepsChronological | humantyping/typer.py:131-208 | with a nonnegative backspace sample a step never moves the clock back and keeps the log in time order |
| TrajectoryProofs.BackspaceCanRewindClock | humantyping/typer.py:137-139 | the backspace sample is not clamped: with the shipped constants, a backspace during a streak with z = -7 moves the clock backwards |
| TrajectoryProofs.ErrorProbabilityBounds | humantyping/typer.py:180-188 | the substitution chance lies between 0.5 and 3 times the base rate, and is at least the base rate for a composed accent |
| TrajectoryProofs.BigramExcludesDistance | humantyping/typer.py:53-55 | a frequent bigram gets its boost whatever the keys' distance |
| TrajectoryProofs.SentinelGetsNoDistanceFactor | humantyping/typer.py:56-61 | an unmapped key (sentinel distance 4) gets neither the close-key nor the far-key factor |
| TrajectoryProofs.PenaltyPriority | humantyping/typer.py:63-70 | at most one additive delay applies, in the order space, composed accent, direct accent, capital |
| TrajectoryProofs.WordFactorAtCursor | humantyping/typer.py:45-51 | the word factor is read at the mental cursor: inside "the cat" it is the common-word boost, past the end it is 1 |
| TrajectoryProofs.CommonWordFactor | humantyping/typer.py:46-49 | a non-empty common word gets the common-word boost |
| TrajectoryProofs.RunLoopStep | humantyping/typer.py:215-218 | one turn of `run`: it stops after a step that emits nothing or that passes the budget, else it continues with the counter + 1 |
| TrajectoryProofs.RunLoopBounds | humantyping/typer.py:212-219 | the loop keeps the invariant and only appends to the log; it appends at most one event per remaining step + 1, and exactly that many when it ends with the text incomplete |
| TrajectoryProofs.RunHistoryBound | humantyping/typer.py:212-219 | from construction, a run's log starts with the INIT entry and has at most 10·len(target) + 2 entries; a run that ends incomplete has exactly that many, having used up its budget |
| TrajectoryProofs.RunLoopChronological | humantyping/typer.py:212-219 | with nonnegative backspace samples the whole log is in time order |
| TrajectoryProofs.CleanStep | humantyping/typer.py:161-208 | on a correct prefix, with draws below neither the swap nor the substitution chance, a step types the next target character |
| TrajectoryProofs.CleanRunLoop | humantyping/typer.py:212-219 | from a correct prefix with enough budget and no slips, the loop types the rest of the target, one TYPED event per character |
| TrajectoryProofs.CleanRun | humantyping/typer.py:212-219 | from construction, without slips, the run ends with the target: INIT, then the i-th event types the i-th target character and shows the first i characters, and nothing else |
| Typer.TypingState.constructor | humantyping/typer.py:8-16 | the record's defaults: empty text, clock 0, empty log, no last key, fatigue 1, cursor 0 |
| Typer.FindFirstError | humantyping/typer.py:83-92 | the scan returns the divergence point: the least differing index within both lengths, else the target length |
| Typer.MarkovTyper.constructor | humantyping/typer.py:19-28 | the speed is the sampled speed raised to at least 10, the base interval follows from it, the keyboard is the layout's, and the state is the initial one, satisfying the invariant |
| Typer.MarkovTyper.CurrentWordContext | humantyping/typer.py:30-40 | the two walks from the mental cursor return the word `CurrentWordBounds` characterises |
| Typer.MarkovTyper.KeystrokeDuration | humantyping/typer.py:42-73 | the base interval times fatigue, scaled by the factor of the word at the mental cursor and of the key pair, plus the special-character delay, sampled and floored at 0.02 s: the duration `Trajectory.KeystrokeTime` gives |
| Typer.MarkovTyper.PressKey | humantyping/typer.py:171-208 | pressing a key updates the text, clock, log, last key and cursor as `KeystrokeEffects` states, and nothing else |
| Typer.MarkovTyper.PressBackspace | humantyping/typer.py:131-147 | the backspace updates the state as `CorrectionStep` states, and nothing else |
| Typer.MarkovTyper.PickKey | humantyping/typer.py:164-192 | the swap test, then the substitution chance of the word and key (bounded by `ErrorProbabilityBounds`) against the draw: the key chosen is the one `ChooseKeyFacts` characterises |
| Typer.MarkovTyper.TypeIntended | humantyping/typer.py:161-210 | fatigue grows once, then the chosen key is pressed, as `TypeNextEffects` states |
| Typer.MarkovTyper.Step | humantyping/typer.py:75-210 | `step` in place: the new state and the returned event are those of `StepOf`, so `StepPreservesInv`, `DoneStepIsIdle`, `CorrectionStep` and `TypingStep` hold of it |
| Typer.MarkovTyper.RunTurn | humantyping/typer.py:215-218 | one loop turn: after it the state is the run's final state, or the run continues from the next counter value |
| Typer.MarkovTyper.Run | humantyping/typer.py:212-219 | `run` in place ends in the state `Trajectory.Run` computes and returns its clock and log; from the constructed state, `RunHistoryBound` and `CleanRun` therefore describe it |

## Left out

- Random sampling (`np.random.normal`, `np.random.random`, `np.random.choice`) is replaced by supplied draws. Properties hold for all draws, or under the stated conditions on them.
- Floating point is replaced by exact reals.
- `np.sqrt` is replaced by squared integer grid distance. The sentinel 4.0 becomes 16, and the thresholds 2 and 4 become 4 and 16.
- `unicodedata.normalize('NFD')` with removal of combining marks is replaced by the encoding's table from a composed accent to its base letter.
- Keyboard.AsEncoded: each of its composed characters decomposes to itself, except U+05B3, which decomposes to nothing. That is what decomposition does to those code points.
- Chars.Lower: `str.lower` and `str.isupper` cover ASCII and Latin-1 only. Other characters count as caseless.
- History entries are `Event` values with a `Kind` in place of formatted label strings.
  - The test `"BACKSPACE" in last_action` becomes "the last entry is a backspace". No other label can contain that word.
  - The INIT label keeps the exact speed rather than its one-decimal rendering.
- The constructor takes the target speed explicitly. The default value `DEFAULT_WPM` is left to the caller.
- `MarkovTyper.__init__` and `KeyboardLayout.__init__` default the layout to "qwerty". The model has no default arguments, so the caller passes the layout name.
- The constructors take an extra `Encoding` parameter. It selects the accent code points: those of src/keyboard.py (`Keyboard.Intended`) or those of humantyping/keyboard.py (`Keyboard.AsEncoded`).
- `PROB_NOTICE_ERROR_LATE` and `TIME_ARROW_*` are carried in the configuration but, as in the code, never used.
- `Language.WordDifficulty` returns a datatype instead of the three strings. The engine compares only against "common" and "complex".
- humantyping/simulation.py, humantyping/integration.py, humantyping/__init__.py, main.py, setup.py, the examples and src/simulation.py/src/integration.py are not part of this model. They drive browsers, sleep and print.

Behaviour of the code worth noting:

- `run` returns `(total_time, history)` and nothing else (humantyping/typer.py:212-219). `RunHistoryBound` characterises a run cut off by the budget: it ends incomplete and has used up its whole budget.
- `get_word_difficulty` strips `.,!?;:` from both ends of the lower-cased word (humantyping/language.py:21).
- The clock is not monotone in general. The backspace sample is added unclamped, so it can move the clock backwards (`BackspaceCanRewindClock`). Time order is proved under a nonnegative backspace sample (`StepKeepsChronological`, `RunLoopChronological`).
- Lines 91-92 of humantyping/typer.py assign the value already held. `FindFirstError` keeps them, and they change nothing.
- Lines 152-159 never fire from construction on. `StepIsTyping` proves that the invariant rules them out.

## Findings

| source | as written | input that shows it | evidently intended | confidence | as-written member | corrected member |
|---|---|---|---|---|---|---|
| humantyping/keyboard.py:10-11 | The accent sets (and the azerty rows at lines 25 and 27) hold UTF-8 bytes decoded as another code page. For example, 'ê' appears as U+05B3 U+00D7. | `get_neighbor_keys('ê')` returns `[]`, and `get_distance('ê', 'e')` returns the sentinel 4.0. | 'ê' is a composed accent that acts as 'e': it has the neighbours of 'e' and is at distance 0 from it, as in src/keyboard.py:10-11 | high (not executed) | KeyboardFacts.AsEncodedMissesAccents | KeyboardFacts.ComposedAccentActsAsBase |
