# Bowling scoring core, modelled and verified in Dafny

This project models the scoring core of a console ten-pin bowling program.
The program has two generations, and both are modelled.

The model covers:

- **The current calculator** (`StandardScoreCalculator`). It turns a roll log
  into frame records (`ScoreFrameDTO`)
  for a configurable number of frames N. Frames 1..N-1 are Normal frames:
  two tries at ten pins. Frame N is the Final frame: up to three throws,
  with the pins set up again whenever they are cleared. The calculator
  rejects the whole log when a roll is outside 0..10. It reports a roll
  above the standing pins in the frame where it happens and goes on. It
  reports rolls left over after frame N in a virtual frame N+1.
- **The current controller** (`Game.KnockDownPins`). It dry-runs the
  calculator on the log plus the new roll. It commits the roll only when no
  frame carries an error message, and otherwise logs the first message.
- **The frame record's debug text** (`ScoreFrameDTO.ToString`).
- **The legacy calculator and controller** of the first console program. The
  legacy calculator has a fixed frame count of ten, but frame 10 appears
  only when rolls remain for it. The output also ends early, at a frame
  waiting for its second roll. There is no check for rolls after frame 10.
  The legacy controller first rejects pin counts outside 0..10.
- **The text helper** `StringExtensions.Center`.

Layout:

| file | module | contents |
|---|---|---|
| `wrappers.dfy` | `Wrappers` | `Option` |
| `decimal.dfy` | `Decimal` | `Int32.ToString()`, the `"00"` format and a reader for both |
| `core.dfy` | `Core` | `ScoreFrame` (`ScoreFrameDTO`), `ToString`, and `Read`, which parses the text back |
| `scoring.dfy` | `Scoring` | the current calculator as functions: one frame at a time, then a whole game |
| `logic.dfy` | `Logic` | the class `StandardScoreCalculator` with the C# loops, proved equal to `Scoring.Calculate` |
| `scoring_facts.dfy` | `ScoringFacts` | what the current calculator guarantees, for every roll log |
| `scoring_examples.dfy` | `ScoringExamples` | the unit-test scenarios, as lemmas |
| `game.dfy` | `Controller` | the class `Game` and what its committed log satisfies |
| `legacy_scoring.dfy` | `LegacyScoring`, `LegacyFacts` | the legacy calculator as functions, and its properties |
| `legacy_logic.dfy` | `LegacyLogic` | the legacy class with its C# loops, proved equal to `LegacyScoring.Calculate` |
| `legacy_game.dfy` | `LegacyController` | the legacy `Game` |
| `string_extensions.dfy` | `StringExtensions` | `Center` |

Each imperative C# method is a Dafny `method` with the same loop and
branches. Its `ensures` ties the result to a reference function in
`Scoring` or `LegacyScoring`, and the lemmas in `ScoringFacts` and
`LegacyFacts` state what those functions guarantee.

The controllers are classes with the C# fields. The committed log and the
cached frames are `seq` fields that `KnockDownPins` reassigns.
`Commit` and `Play` describe the log after one call and after a run of calls.

Where a written description of the program and its code disagree, the model
follows the code:

- The current calculator does not stop at the first error frame. A Normal
  frame whose second roll is above the standing pins is recorded with its
  message, and the frames after it are still built and scored.
  - `ScoringExamples.ErrorFrameDoesNotStopGame`
- A Final frame whose third throw is the error is still scored: the
  calculator adds all three rolls.
  - `ScoringFacts.ErrorFramesUnscored`
  - `ScoringExamples.FinalErrorStillScored`
- The calculator's own default frame count is 12, not 10. `new Game()`
  passes 10.
- The current calculator does not stop at a Normal frame that waits for its
  second roll. It builds the remaining frames, which are empty.
  - `ScoringFacts.CalculateLayout`

## Model

| member | source | states |
|---|---|---|
| Logic.StandardScoreCalculator.constructor | BowlingGame/Game/src/BowlingGame/Logic/StandardScoreCalculator.cs:12-15 | The calculator plays with the frame count it is given. |
| Logic.StandardScoreCalculator.Calculate | BowlingGame/Game/src/BowlingGame/Logic/StandardScoreCalculator.cs:21-57 | For every roll log, the frames built by range check, frame loop, Final frame and extra check are exactly `Scoring.Calculate(rolls, N)`. |
| Logic.StandardScoreCalculator.NormalFrameLoop | BowlingGame/Game/src/BowlingGame/Logic/StandardScoreCalculator.cs:35-43 | After the loop over frames 1..N-1, the frames, roll index and running total are those of the Normal frames each continuing from the previous one. |
| Logic.StandardScoreCalculator.ValidateInputRange | BowlingGame/Game/src/BowlingGame/Logic/StandardScoreCalculator.cs:60-74 | The scan returns the error frame for the first roll outside 0..10. It returns none exactly when every roll is in range. |
| Logic.StandardScoreCalculator.ValidateExtra | BowlingGame/Game/src/BowlingGame/Logic/StandardScoreCalculator.cs:77-89 | A frame N+1 carrying the extra-rolls message is returned exactly when the roll index stops short of the log's end. |
| Logic.StandardScoreCalculator.ConsumeAndCalculateNormalFrame | BowlingGame/Game/src/BowlingGame/Logic/StandardScoreCalculator.cs:94-174 | Appends exactly the Normal frame of the reference, and advances the roll index and running total as the reference does. |
| Logic.StandardScoreCalculator.NormalTries | BowlingGame/Game/src/BowlingGame/Logic/StandardScoreCalculator.cs:105-137 | The two-try loop takes the frame's rolls and records the error for a roll above the standing pins. A cleared frame after one try is a strike, after two a spare. Otherwise it is open, and the knocked-down pins are its two rolls. |
| Logic.StandardScoreCalculator.ConsumeAndCalculateFinalFrame | BowlingGame/Game/src/BowlingGame/Logic/StandardScoreCalculator.cs:179-238 | Appends exactly the Final frame of the reference, and advances the roll index and running total as the reference does. |
| Logic.StandardScoreCalculator.FinalTries | BowlingGame/Game/src/BowlingGame/Logic/StandardScoreCalculator.cs:189-228 | The three-throw loop with pin resets takes the rolls the Final-frame rule allows. It records the message naming the throw, the roll and the standing pins. |
| ScoringFacts.OutOfRangeOutput | BowlingGame/Game/src/BowlingGame/Logic/StandardScoreCalculator.cs:60-74 | A roll outside 0..10 anywhere replaces the whole output with one unscored, empty error frame numbered 1. Its message names the first bad index and its roll. |
| ScoringFacts.CalculateLayout | BowlingGame/Game/src/BowlingGame/Logic/StandardScoreCalculator.cs:35-54 | For an in-range log: frames 1..N-1 are Normal frames, each continuing where the previous stopped. Frame N is the Final frame. Frame N+1 is the extra-rolls frame, present exactly when rolls are left over. |
| ScoringFacts.FrameLayout | BowlingGame/Game/src/BowlingGame/Logic/StandardScoreCalculator.cs:35-89 | Frames are numbered 1, 2, ... in order, and only frame N is Final. There are N+1 frames exactly when rolls remain unconsumed, and that last frame holds only an error. |
| ScoringFacts.RollPartition | BowlingGame/Game/src/BowlingGame/Logic/StandardScoreCalculator.cs:111-228 | Concatenated in order, the frames' rolls are exactly the prefix of the log the calculator consumed. No roll is lost, duplicated or reordered. |
| ScoringFacts.FrameSizes | BowlingGame/Game/src/BowlingGame/Logic/StandardScoreCalculator.cs:106-192 | A Normal frame holds at most two rolls and the Final frame at most three. |
| ScoringFacts.NormalFrameRule | BowlingGame/Game/src/BowlingGame/Logic/StandardScoreCalculator.cs:111-171 | A Normal frame holds one roll only for a strike or at the end of the log, and is an unscored error frame exactly when its two rolls exceed 10. Once its bonus rolls are in the log, a strike scores 10 plus the next two rolls and a spare 10 plus the next one. An open frame scores its pins, and the running total moves on by the points scored. |
| ScoringFacts.NormalPointsBounds | BowlingGame/Game/src/BowlingGame/Logic/StandardScoreCalculator.cs:146-171 | A Normal frame adds between 0 and 30 points to the running total. |
| ScoringFacts.FinalThrowsRule | BowlingGame/Game/src/BowlingGame/Logic/StandardScoreCalculator.cs:192-228 | Every throw of the Final frame but the last fits the standing pins, which are reset when cleared. The frame is an error exactly when its last throw exceeds them, and its message names that throw. A third throw comes only after a strike or a spare. The frame stops at two throws only when it is open, an error, or the log ends. |
| ScoringFacts.FinalScoreRule | BowlingGame/Game/src/BowlingGame/Logic/StandardScoreCalculator.cs:231-249 | The Final frame is scored exactly when it has three throws, or two leaving pins standing. Its score is the running total plus the plain sum of its rolls. |
| ScoringFacts.FinalPointsBounds | BowlingGame/Game/src/BowlingGame/Logic/StandardScoreCalculator.cs:231-235 | A scored Final frame adds between 0 and 30 points. |
| ScoringFacts.TotalBounds | BowlingGame/Game/src/BowlingGame/Logic/StandardScoreCalculator.cs:146-171 | The running total before frame k+1 lies between 0 and 30·k, and never falls. |
| ScoringFacts.ScoredFrame | BowlingGame/Game/src/BowlingGame/Logic/StandardScoreCalculator.cs:146-235 | A scored frame is one of the N and not frame N+1. Its score is at least the total before it and at most 30 above it. For a Normal frame, the score is the total the next frame starts from. |
| ScoringFacts.ScoresNonDecreasing | BowlingGame/Game/src/BowlingGame/Logic/StandardScoreCalculator.cs:146-235 | The cumulative scores of an in-range log never decrease from one scored frame to a later one. Frame k+1 scores at most 30·(k+1). |
| ScoringFacts.ErrorFramesUnscored | BowlingGame/Game/src/BowlingGame/Logic/StandardScoreCalculator.cs:139-143 | No error frame carries a score, except a Final frame whose third throw is the error. |
| ScoringFacts.FirstErrorUnscored | BowlingGame/Game/tests/BowlingGame.Tests/StandardScoreCalculatorTests.cs:93-97 | For any log, the first error frame has no score unless it is a three-throw Final frame. |
| ScoringFacts.OutOfRangeFirstError | BowlingGame/Game/tests/BowlingGame.Tests/StandardScoreCalculatorTests.cs:66-68 | For a log with a roll outside 0..10, the first error frame is the single output frame, and it is unscored. |
| ScoringFacts.FirstErrorOfGame | BowlingGame/Game/tests/BowlingGame.Tests/StandardScoreCalculatorTests.cs:93-97 | In an in-range game whose Final frame does not take three throws, the first error frame has no score. |
| ScoringFacts.LastScoreOfGame | BowlingGame/Game/tests/BowlingGame.Tests/StandardScoreCalculatorTests.cs:40 | The last score of the output is that of the latest scored frame among the N. |
| ScoringExamples.AllGutters | BowlingGame/Game/tests/BowlingGame.Tests/StandardScoreCalculatorTests.cs:21 | Twenty gutter balls score 0. |
| ScoringExamples.PerfectGame | BowlingGame/Game/tests/BowlingGame.Tests/StandardScoreCalculatorTests.cs:22 | Twelve strikes score 300. |
| ScoringExamples.SpareBonus | BowlingGame/Game/tests/BowlingGame.Tests/StandardScoreCalculatorTests.cs:23 | A spare followed by 3 and then gutters scores 16. |
| ScoringExamples.NineEveryFrame | BowlingGame/Game/tests/BowlingGame.Tests/StandardScoreCalculatorTests.cs:24 | Nine and a miss in every frame scores 90. |
| ScoringExamples.AllFives | BowlingGame/Game/tests/BowlingGame.Tests/StandardScoreCalculatorTests.cs:25 | Twenty-one fives score 150. |
| ScoringExamples.OpenTenthThenExtraRoll | BowlingGame/Game/tests/BowlingGame.Tests/StandardScoreCalculatorTests.cs:26 | Nine strikes, an open tenth and one more roll: the last score is 250, and an extra-rolls error frame follows. |
| ScoringExamples.OpenTenth | BowlingGame/Game/tests/BowlingGame.Tests/StandardScoreCalculatorTests.cs:27 | Nine strikes and an open tenth score 250. |
| ScoringExamples.SpareTenth | BowlingGame/Game/tests/BowlingGame.Tests/StandardScoreCalculatorTests.cs:28 | Nine strikes and a spare-strike tenth score 275. |
| ScoringExamples.StrikeTenth | BowlingGame/Game/tests/BowlingGame.Tests/StandardScoreCalculatorTests.cs:29 | Ten strikes and 2, 2 score 276. |
| ScoringExamples.SixStrikes | BowlingGame/Game/tests/BowlingGame.Tests/StandardScoreCalculatorTests.cs:30 | Six strikes show 120 as the last score. |
| ScoringExamples.MixedGame | BowlingGame/Game/tests/BowlingGame.Tests/StandardScoreCalculatorTests.cs:31 | The mixed game scores 237. |
| ScoringExamples.ThreeStrikes | BowlingGame/Game/tests/BowlingGame.Tests/StandardScoreCalculatorTests.cs:32 | Three strikes show 30 as the last score. |
| ScoringExamples.RollAboveTen | BowlingGame/Game/tests/BowlingGame.Tests/StandardScoreCalculatorTests.cs:66 | A roll of 11 gives an error frame without a score. |
| ScoringExamples.FirstFrameOverflow | BowlingGame/Game/tests/BowlingGame.Tests/StandardScoreCalculatorTests.cs:67 | 5 then 6 gives an error frame without a score. |
| ScoringExamples.NegativeRoll | BowlingGame/Game/tests/BowlingGame.Tests/StandardScoreCalculatorTests.cs:68 | A roll of -5 gives an error frame without a score. |
| ScoringExamples.ExtraRollsAfterOpenTenth | BowlingGame/Game/tests/BowlingGame.Tests/StandardScoreCalculatorTests.cs:69 | Two rolls after an open tenth give an error frame without a score. |
| ScoringExamples.FinalOverflow | BowlingGame/Game/tests/BowlingGame.Tests/StandardScoreCalculatorTests.cs:70 | 5 then 10 in the tenth gives an error frame without a score. |
| ScoringExamples.ErrorFrameDoesNotStopGame | BowlingGame/Game/src/BowlingGame/Logic/StandardScoreCalculator.cs:139-143 | After an error in frame 1, frame 2 is still built and scored. |
| ScoringExamples.FinalErrorStillScored | BowlingGame/Game/src/BowlingGame/Logic/StandardScoreCalculator.cs:231-235 | A tenth frame of strike, 3, 8 is an error frame that still carries the score 284. |
| Controller.Game.constructor | BowlingGame/Game/src/BowlingGame/Game.cs:29-36 | A new game has an empty log and cache, and its calculator plays the game's frame count. |
| Controller.Game.WithCalculator | BowlingGame/Game/src/BowlingGame/Game.cs:41-46 | The injecting constructor keeps the given calculator, and leaves the game's own frame count at its default 0. |
| Controller.Game.KnockDownPins | BowlingGame/Game/src/BowlingGame/Game.cs:53-81 | When the dry run on the log plus the roll has an error frame, the first error message is logged and nothing else changes. Otherwise the roll is appended and the dry run's frames are cached. The committed log always scores without an error. |
| Controller.OutOfRangeRejected | BowlingGame/Game/src/BowlingGame/Logic/StandardScoreCalculator.cs:27-32 | A log with a roll outside 0..10 always has an error frame, so the controller never commits such a roll. |
| Controller.LeftoverRejected | BowlingGame/Game/src/BowlingGame/Logic/StandardScoreCalculator.cs:50-54 | A log the N frames do not consume entirely always has an error frame. |
| Controller.CleanLog | BowlingGame/Game/src/BowlingGame/Game.cs:65-77 | A log with no error frame has only rolls in 0..10, is consumed entirely, and yields exactly N frames. |
| Controller.CommitClean | BowlingGame/Game/src/BowlingGame/Game.cs:57-77 | One call keeps the log free of error frames and either leaves it as it was or appends exactly the given roll. |
| Controller.PlayClean | BowlingGame/Game/src/BowlingGame/Game.cs:53-81 | Whatever rolls a new game is given, its log has no error frame, has only rolls in 0..10, is consumed by the N frames, and grows by at most one roll per call. |
| Controller.PlayKeepsClean | BowlingGame/Game/src/BowlingGame/Game.cs:53-81 | From a clean log, any run of calls only extends the log, by at most one roll per call, and keeps it clean. |
| Controller.RejectedRepeat | BowlingGame/Game/src/BowlingGame/Game.cs:67-72 | A rejected roll stays rejected: entering it again any number of times leaves the log unchanged. |
| Core.ReadToString | BowlingGame/Game/src/BowlingGame/Core/ScoreFrameDTO.cs:22-30 | All shown fields can be read back from a frame's text: number, type, rolls, score, and the error when non-empty. |
| Core.RollsTextRoundTrip | BowlingGame/Game/src/BowlingGame/Core/ScoreFrameDTO.cs:24 | The comma-joined rolls read back as the rolls, and contain no `]`. |
| Core.ScoreTextRoundTrip | BowlingGame/Game/src/BowlingGame/Core/ScoreFrameDTO.cs:25 | A present score prints as its digits and reads back; an absent one prints exactly as `null`. |
| Core.KindTextNamesKind | BowlingGame/Game/src/BowlingGame/Core/ScoreFrameDTO.cs:26 | The text names the type: `Final` exactly for a Final frame. |
| Core.StatusTextRoundTrip | BowlingGame/Game/src/BowlingGame/Core/ScoreFrameDTO.cs:27 | The status is `Valid` exactly when the message is absent or empty; otherwise it is `Error(...)` around the message, which reads back. |
| Decimal.IntToStringRoundTrip | BowlingGame/Game/src/BowlingGame/Core/ScoreFrameDTO.cs:25 | The decimal text of any integer reads back as that integer. |
| Decimal.IntToString00RoundTrip | BowlingGame/Game/src/BowlingGame/Core/ScoreFrameDTO.cs:29 | The two-digit zero-padded frame number reads back as the number. |
| LegacyLogic.StandardScoreCalculator.Calculate | Game/Game/Program.cs:235-382 | The legacy loop over frames 1..9 and the tenth-frame block produce exactly `LegacyScoring.Calculate(rolls)`. The loop continues after empty or error frames, stops at a pending one, and frame 10 appears only when rolls remain. |
| LegacyLogic.StandardScoreCalculator.ConsumeNormalFrame | Game/Game/Program.cs:244-325 | One pass of the legacy frame loop builds the reference frame, roll index, running total and pending flag. |
| LegacyLogic.StandardScoreCalculator.FinalFrame | Game/Game/Program.cs:329-379 | Frame 10 is the reference tenth frame. The running total grows by its score once it is finished. |
| LegacyLogic.StandardScoreCalculator.FinalThrowLoop | Game/Game/Program.cs:334-369 | The legacy three-throw loop takes the rolls of the tenth-frame rule and records the message for a throw above the standing pins. It leaves the frame unscored. |
| LegacyFacts.Layout | Game/Game/Program.cs:235-382 | Frames are numbered 1, 2, ... and there are at most ten. Frame 10 exists exactly when rolls remain after the Normal frames, and it is built by the tenth-frame rules. |
| LegacyFacts.RollPartition | Game/Game/Program.cs:235-382 | Concatenated in order, the frames' rolls are exactly the consumed prefix of the log. Rolls after frame 10 are neither in a frame nor reported. |
| LegacyFacts.NormalStepRule | Game/Game/Program.cs:244-325 | A legacy Normal frame takes the next rolls of the log, at most two, and is pending exactly when it holds one non-strike roll. A strike scores only when both bonus rolls are there, and a spare scores 10 plus the roll after it. An open frame scores its pins. A second roll above the standing pins makes an unscored error frame with the sum message. |
| LegacyFacts.OverflowContinues | Game/Game/Program.cs:292-302 | A second roll above the standing pins gives an error frame holding both rolls, and the loop goes on two rolls later. |
| LegacyFacts.PendingIsLast | Game/Game/Program.cs:284-290 | A Normal frame waiting for its second roll is always the last frame of the output. |
| LegacyFacts.FinalRule | Game/Game/Program.cs:329-379 | Frame 10 takes one to three consecutive rolls, and a third only when the second throw cleared the reset pins. It is an error exactly when the second throw exceeds the standing pins. It is scored exactly when `IsFinalFrameFinished` holds, with the running total plus its pins. |
| LegacyFacts.StrikeThenOpenUnscored | Game/Game/Program.cs:359-368 | A strike then an open throw ends the legacy frame 10 after two throws, and that frame is never scored. The current calculator grants the third throw instead. |
| LegacyFacts.PerfectGame | Game/Game/Program.cs:235-382 | Twelve strikes give ten error-free frames with 300 in frame 10, consuming all twelve rolls. |
| LegacyFacts.NoTrailingCheck | Game/Game/Program.cs:329-381 | Thirteen strikes still score 300 without an error: the thirteenth roll is left unconsumed and unreported. |
| LegacyFacts.SingleRollPending | Game/Game/Program.cs:284-290 | A single non-strike roll gives one pending frame. |
| LegacyFacts.StrikeThenPending | Game/Game/Program.cs:270-290 | A strike then a non-strike roll gives two unscored frames and stops at frame 2. |
| LegacyController.Game.constructor | Game/Game/Program.cs:72-74 | A new legacy game has an empty log, cache and logger record. |
| LegacyController.Game.WithCalculator | Game/Game/Program.cs:78-83 | The injecting constructor keeps the given calculator and starts with an empty log. |
| LegacyController.Game.KnockDownPins | Game/Game/Program.cs:85-119 | A pin count outside 0..10 logs the input error and changes nothing else. Otherwise the pins are committed exactly when the dry run has no error frame, and the first error message is logged if it has one. |
| LegacyController.CommitClean | Game/Game/Program.cs:88-112 | One call keeps the log in range and free of error frames, and adds at most the given roll. |
| LegacyController.PlayClean | Game/Game/Program.cs:85-119 | Every log a new legacy game reaches is in range, free of error frames, and grows by at most one roll per call. |
| LegacyController.PlayKeepsClean | Game/Game/Program.cs:85-119 | From a clean log, any run of calls only extends the log and keeps it clean. |
| LegacyController.RejectedRepeat | Game/Game/Program.cs:88-107 | A rejected pin count stays rejected however often it is entered again. |
| LegacyController.ExtraRollAccepted | Game/Game/Program.cs:95-112 | After a perfect game, a thirteenth strike is still accepted into the log. |
| StringExtensions.Center | Game/Game/Program.cs:452-466 | Centring fails only for an empty text with a negative width, the case where `new string` throws. |
| StringExtensions.CenterEmpty | Game/Game/Program.cs:454-455 | An empty text becomes exactly `totalWidth` padding characters. |
| StringExtensions.CenterTooNarrow | Game/Game/Program.cs:457-459 | A non-empty text at least as wide as the field comes back unchanged. |
| StringExtensions.CenterBalanced | Game/Game/Program.cs:461-465 | A text narrower than the field fills it exactly, with the text intact in the middle. The left padding is at most the right, which is at most one longer. |

## Left out

- Rendering (`ConsoleScoreRenderer`) and console logging (`ConsoleLogger`)
  write to the console and are not modelled. `KnockDownPins` drops the
  render call. The logger becomes the ghost field `logged`, the messages
  it would have been handed, in order.
- Entry points, the console read loop and input parsing (`Main`) are I/O
  and are not modelled.
- The interfaces `IScoreCalculator`, `IScoreBoardRenderer` and `ILogger` are
  not modelled. The injecting constructors take the concrete calculator of
  their own generation and drop the renderer and logger parameters.
- Controller.Game.WithCalculator: `_totalFrames` is unused by the C# code
  after construction, so the model only records its default 0.
- 32-bit wrap-around of C# `int` is not modelled; the model's integers are
  unbounded. For rolls in 0..10 the running total stays below 30·N, so it
  could wrap only for a frame count above 71 million, and `N + 1` only for
  `N = Int32.MaxValue`. The legacy calculator has no range check, so the
  sum of two rolls near the 32-bit limits could also wrap there.
- StringExtensions.Center: a `null` text is not modelled; Dafny strings
  are never null. The empty-string branch it shares with `null` is.
- StringExtensions.Center: lengths are counted in Unicode code points
  (Dafny `char`), not in the UTF-16 code units of C# `string.Length`. So a
  text with characters outside the Basic Multilingual Plane is centred
  differently, and StringExtensions.CenterTooNarrow and
  StringExtensions.CenterBalanced state their facts in code points. The
  program never calls `Center`, and every text the program builds is ASCII,
  where the two measures agree.
- Decimal.IntToString: numbers are printed as under the invariant culture,
  with `-` as the minus sign. The C# code formats with the current culture,
  whose `NegativeSign` can be another character (U+2212 in some cultures).
  That would change the range-error message for a negative roll.
- Logic.StandardScoreCalculator.NormalTries and
  Logic.StandardScoreCalculator.FinalTries are the loops of
  `ConsumeAndCalculateNormalFrame` and `ConsumeAndCalculateFinalFrame`,
  split out as methods. Similarly, the legacy `Calculate` body is split into
  `ConsumeNormalFrame`, `FinalFrame` and `FinalThrowLoop`. Each split
  method returns what the C# code keeps in local variables.
- The unit tests' string parsing (`ParseRolls`) is not modelled. The
  scenarios take the parsed roll sequence directly.
