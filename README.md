# Chest upgrade probability calculator — verified model

The calculator answers one question. A chest sits on a ladder of
`level_count` levels and starts at `start_level`. Each attempt moves a chest
at level i up to level i + 1 with that transition's probability, and
otherwise leaves it where it is. After `n` attempts, what is the chance of
being at each level? This is the same engine in both copies of the program,
`chest_probability_calculator.py` and `final_chest_calculator.py`. It does
four things:

1. It validates the ladder, the start level and `n`.
2. It reads each probability field with `parse_percentage`.
3. It places the readings on the ladder from the start level upward.
4. It propagates a unit distribution through `n` attempts.

The model is one Dafny project in four modules:

| module | file | what it holds |
|---|---|---|
| `Errors` | `errors.dfy` | `Option`, `Result` and the five refusals the calculator raises |
| `Percentage` | `percentage.dfy` | `parse_percentage` as pure functions (strip, one trailing `%`, a decimal reading of `float()`, divide by 100 above 1) with its lemmas |
| `Distribution` | `distribution.dfy` | the Markov step as mathematics: `Step`, `Run`, `Unit`, `Sum`, and mass conservation, non-negativity, upward flow, empty levels below the start, absorbing levels |
| `Engine` | `engine.dfy` | the imperative engine: the loop that fills `upgrade_probabilities` on an array, the nested propagation loops on arrays with `+=`, and the whole `calculate_probabilities` method, each proved equal to a specification function; and the index filter of `update_level_inputs`, proved to return exactly start_level - 1 .. level_count - 2 after the same two ladder checks |

Probabilities are `real`, so mass is conserved exactly where the program
only gets it up to rounding. The text of each field is a `string`. The three
integer inputs are `int`.

Each method is proved against a specification function that also appears in
its contract:
- `FillUpgradeProbabilities` against `UpgradeProbabilities`;
- `Attempt` against `Step`;
- `Propagate` against `Run`;
- `CalculateProbabilities` against `Calculate`.

The properties the program relies on are then proved about those functions.

The fill loop takes the function that reads one field as a parameter;
`CalculateProbabilities` passes `ParsePercentage`. The loop reads a field
only when its transition lies below the top, as the program does. So the
readings of the fields beyond the top are never inspected, and
`UpgradeProbabilities` looks only at the readings below the top
(`ExtraTokensIgnored`).

Behaviour the model keeps as the code has it, where a reader might expect
otherwise:
- A number at most 1 is a fraction, whether or not it carries `%`. So `"1"`
  and `"1%"` both mean certainty, and `"0.5%"` means one half.
- Only a number strictly above 1 is divided by 100. So `"150%"` reads as
  1.5 and is then refused.
- Only one trailing `%` is removed: `"50%%"` cannot be read.
- The error for an unreadable field carries the text after stripping and
  after the `%` is removed. That is the text handed to `float()`.
- `strip()` and `float()` skip different whitespace. U+001C .. U+001F are
  removed by `strip()` but not skipped by `float()`, so `"50\x1c%"` is refused.
  A no-break space left before the `%` is skipped by `float()`, so
  `"50\xa0%"` reads as one half.
- The list of fields may be longer than the ladder needs. Fields whose
  transition index reaches the top are skipped without being read.

## Model

Each row cites one of the two copies; every member models
both. The spans correspond as follows: `parse_percentage` is
chest_probability_calculator.py:331-350 and final_chest_calculator.py:172-191;
the validation is 361-368 and 202-209; the fill loop is 371-381 and 212-222;
propagation is 385-401 and 226-242; the index filter is 309-313 and 151-155.

| member | source | states |
|---|---|---|
| Percentage.ParseOutcome | chest_probability_calculator.py:331-350 | a field is refused exactly when float() cannot read its stripped, de-percented text, the error carries that text, and a reading lies in [0, 1] exactly when the number read lies in [0, 100] |
| Percentage.PercentRoundTrip | chest_probability_calculator.py:335-348 | a whole number n written with or without one trailing '%' reads as n / 100 when n > 1 and as n itself when n is 0 or 1 |
| Percentage.PercentSignOptional | final_chest_calculator.py:179-183 | a '%' appended to trimmed text that does not already end in '%' does not change the reading |
| Percentage.PaddingIgnored | chest_probability_calculator.py:335 | whitespace added at either end of a field never changes its reading |
| Percentage.SameStripSameReading | final_chest_calculator.py:176 | two fields that strip to the same text read the same |
| Percentage.StripIdempotent | chest_probability_calculator.py:335 | stripping twice is stripping once |
| Percentage.StripSpec | chest_probability_calculator.py:335 | strip() leaves a slice of the text with no whitespace at either end, and everything it removes is whitespace |
| Percentage.StripPadded | final_chest_calculator.py:176 | strip() ignores any whitespace added around the text |
| Percentage.FloatTrimOfTrimmed | chest_probability_calculator.py:335-348 | text that strip() leaves unchanged also reaches float()'s digit reading unchanged, because float() skips only characters strip() removes |
| Percentage.SeparatorBeforePercentRefused | chest_probability_calculator.py:335-350 | "50\x1c%" is refused with the text "50\x1c": strip() keeps U+001C inside the token and float() does not skip it |
| Percentage.NoBreakSpaceBeforePercent | final_chest_calculator.py:176-189 | "50\xa0%" still reads as 0.5: strip() keeps the no-break space before the '%', and float() skips it |
| Percentage.RenderRoundTrip | chest_probability_calculator.py:342 | reading back the decimal digits of n gives n, the digit reading float() performs on whole numbers |
| Percentage.FiftyIsHalf | chest_probability_calculator.py:338-346 | "50" and "50%" both read as 0.5 |
| Percentage.DecimalHalf | chest_probability_calculator.py:342-348 | "0.5" reads as 0.5, undivided |
| Percentage.OneIsCertainty | final_chest_calculator.py:186-189 | "1" and "1%" read as 1.0, while "2" reads as 0.02 |
| Percentage.OverHundredPercent | chest_probability_calculator.py:338-346 | "150%" reads as 1.5 |
| Percentage.NegativeHalf | final_chest_calculator.py:183-189 | "-0.5" reads as -0.5: a negative number is never divided |
| Percentage.OnlyOnePercentRemoved | chest_probability_calculator.py:338-350 | only one '%' is removed: "50%%" is refused as the unreadable text "50%" |
| Engine.ValidationError | chest_probability_calculator.py:361-368 | the first failing check in program order: fewer than 2 levels, else a start level outside [1, level_count] (naming level_count), else a negative n; none exactly when all three hold |
| Engine.ValidationFirst | chest_probability_calculator.py:361-368 | when a check fails, the result is that refusal whatever the fields hold, before anything is read or propagated |
| Engine.FirstRefused | chest_probability_calculator.py:374-381 | readings are checked in order: every reading before the returned index is accepted for its transition, and the reading at it, if any, is refused |
| Engine.FirstRefusedIs | final_chest_calculator.py:215-221 | the first refusal is unique: the only index with every earlier reading accepted and its own refused |
| Engine.PlacementOutcome | chest_probability_calculator.py:374-381 | placement succeeds exactly when no reading below the top is refused, and otherwise fails with the first refusal's error |
| Engine.PlacementIgnoresTail | final_chest_calculator.py:216-217 | readings that agree on every transition below the top are placed alike, whatever follows them |
| Engine.UpgradeProbabilities | chest_probability_calculator.py:371-381 | the placed ladder has level_count - 1 probabilities, all in [0, 1]; reading i sits at index start_level - 1 + i whenever that index is below level_count - 1; every index below the start and past the readings is 0 |
| Engine.PlaceMatches | final_chest_calculator.py:212-222 | any ladder of level_count - 1 slots that holds the accepted values from start_level - 1 onward and 0 in every other slot is the placement, so the zero-initialised array the loop fills is determined by those two facts |
| Engine.FillUpgradeProbabilities | chest_probability_calculator.py:371-381 | the fill loop over the array returns exactly UpgradeProbabilities of the fields' readings, including the first refusal's error |
| Engine.RefusalIsFirst | chest_probability_calculator.py:378-380 | when every earlier reading was accepted and reading i below the top is refused, placement fails with reading i's error |
| Engine.AcceptedAll | chest_probability_calculator.py:374-381 | when every reading below the top was accepted into the array, placement succeeds with exactly that array |
| Engine.FirstRefusalReported | final_chest_calculator.py:217-221 | the first refused field decides the result: an unreadable field gives its parse error, a number outside [0, 1] gives the error naming transition start_level + i -> start_level + i + 1 |
| Engine.OverHundredPercentRefused | chest_probability_calculator.py:378-380 | three levels with "150%" on the first transition are refused as transition 1 -> 2 |
| Engine.Attempt | chest_probability_calculator.py:389-399 | one pass of the inner loop builds a fresh vector equal to Step of the current one |
| Engine.StepAt | final_chest_calculator.py:234-240 | after a step, level i holds what came up from level i - 1 plus p[i](1 - u[i]) when u[i] > 0 below the top, and all of p[i] otherwise |
| Engine.Propagate | chest_probability_calculator.py:385-401 | the unit vector at start_level - 1 put through n passes of the outer loop is Run of n steps |
| Engine.CalculateProbabilities | chest_probability_calculator.py:352-401 | the whole computation returns Calculate: the validation refusal, else the first placement refusal, else the distribution after n steps |
| Engine.CalculatedDistribution | chest_probability_calculator.py:385-401 | a computed distribution has level_count entries, total mass 1, no negative entry and no mass below the start level |
| Engine.Distributed | final_chest_calculator.py:226-242 | for any placed ladder with probabilities in [0, 1], n steps from the unit vector at the start give level_count entries, total mass 1, no negative entry and no mass below the start |
| Engine.NoAttempts | chest_probability_calculator.py:385-388 | with n = 0 the result is the unit vector at start_level - 1 |
| Engine.ExtraTokensIgnored | chest_probability_calculator.py:374-377 | fields beyond the top of the ladder never change the result |
| Engine.PromptedTokensFillLadder | chest_probability_calculator.py:374-381 | one field per prompted transition fills every transition from the start level to the top with that field's accepted reading |
| Engine.OneAttemptAtFiftyPercent | final_chest_calculator.py:193-242 | two levels, "50%" and one attempt give [0.5, 0.5] |
| Engine.PromptedIndices | chest_probability_calculator.py:309-313 | after the same two ladder checks, the transitions shown are exactly start_level - 1 .. level_count - 2, in order |
| Distribution.StepConservesMass | chest_probability_calculator.py:389-401 | one step keeps the total mass exactly |
| Distribution.RunConservesMass | final_chest_calculator.py:229-242 | any number of steps keeps the total mass exactly |
| Distribution.UnitMass | chest_probability_calculator.py:385-386 | the starting unit vector has total mass 1 |
| Distribution.StepNonNegative | chest_probability_calculator.py:393-399 | with probabilities in [0, 1], a step keeps every level non-negative |
| Distribution.RunNonNegative | final_chest_calculator.py:229-242 | the same after any number of steps |
| Distribution.StepNeverLowers | chest_probability_calculator.py:393-399 | in a step, the mass of the lowest k levels never grows, for every k: mass only moves up |
| Distribution.RunNeverLowers | final_chest_calculator.py:234-240 | the same after any number of steps |
| Distribution.StepPrefixSum | chest_probability_calculator.py:393-399 | the lowest k levels lose exactly what crosses from level k - 1 to level k |
| Distribution.StuckLevelKeepsMass | final_chest_calculator.py:238-240 | the top level and every level with probability 0 keep all their mass |
| Distribution.RunKeepsEmptyBelow | chest_probability_calculator.py:386-399 | levels that are empty with everything below them stay empty after any number of steps |
| Distribution.RunWithoutUpgrades | chest_probability_calculator.py:393-399 | with every probability 0 the vector never changes |
| Distribution.CertainUpgradesReachTop | final_chest_calculator.py:234-242 | with every probability from the start level upward equal to 1, all mass is at the top after level_count - start_level steps |
| Distribution.RunUnitClimbs | final_chest_calculator.py:234-242 | with certain upgrades from index j upward, the unit vector at j moves up one level per step until it reaches the top |

## Left out

- The Tkinter window, its widgets, layout, language switching and message boxes are not modelled. They are user-interface plumbing, and the text of a message is not part of the computation.
- `update_chart` and the result text are not modelled. They are rendering and formatting only.
- IEEE-754 rounding is not modelled: arithmetic is over the reals.
- `Percentage.ParseFloat` reads an optional sign, digits, at most one '.', and at least one digit, which is the decimal part of Python's `float()`. It does not model exponents, `inf`, `nan`, underscores between digits or non-ASCII digits. For such text the model refuses where Python might accept.
- `Percentage.IsSpace` (the whitespace `str.strip()` removes) and `Percentage.FloatSpace` (the whitespace `float()` skips, which lacks U+001C .. U+001F) cover only characters up to U+00FF. Other Unicode whitespace is not skipped in the model.
- Reading the three integer fields (`IntVar.get()`) and the error it raises on non-numbers are not modelled: the three integers are inputs.
- The catch-all `except Exception`, which shows any error as text, is not modelled: errors are `Result` values instead.
- Engine.FillUpgradeProbabilities: the reader is a parameter rather than a call to `parse_percentage` inside the loop. `CalculateProbabilities` passes `ParsePercentage`, so the composed result is the program's.
- Engine.PromptedIndices: models which transitions get a field, not the default text a new field shows.
