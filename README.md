# TipAndSplitCompose — the tip and split calculation

TipAndSplitCompose is an Android screen. It turns a bill amount, a number of
people, a service rating (a slider) and a round-up switch into a tip
percentage, a tip, a grand total and a per-person share. This project models
that calculation chain in Dafny and proves its properties:

- `wrappers.dfy`: `Option`, the result of parsing a text field.
- `tip_calculation.dfy` (module `TipCalculation`): the private functions
  `calculateTipPercent`, `calculateTip`, `calculateTotal` (with
  `kotlin.math.ceil`) and the numeric part of `calculatePersonTotal`.
- `tip_and_split_screen.dfy` (module `Screen`): the values
  `TipAndSplitScreen` derives from its remembered state on every
  recomposition. The state is an explicit `Inputs` value, and the derived
  numbers are a `Derived` value.

Kotlin `Double` is modelled as exact `real`. A parsed text field is an
`Option`: `None` is text that `toDoubleOrNull` / `toIntOrNull` rejects.
Kotlin's default arguments are kept as Dafny default parameters.

- The grand total is bill plus tip, optionally rounded up, and is not divided
  by the people count (line 69). Only the person total divides by it (line 71).
- The people count is not clamped, so a parsed `0` reaches the division.
  `PersonTotal` therefore returns a `Quotient`: a finite value, or, for a zero
  divisor, positive infinity, negative infinity or NaN by the sign of the
  grand total, as a Kotlin `Double` division would.

## Model

| member | source | states |
|---|---|---|
| TipCalculation.TipPercent | app/src/main/java/com/example/tipandsplitcompose/MainActivity.kt:214-225 | the result is one of 15, 18, 20; it is 20 exactly for slider value 3, 18 exactly for 2, and 15 for every other value |
| TipCalculation.TipTiersReachable | app/src/main/java/com/example/tipandsplitcompose/MainActivity.kt:182-222 | on the slider range 1..3 a higher rating never selects a lower percentage, and each of the three tiers is selected by some rating |
| TipCalculation.Tip | app/src/main/java/com/example/tipandsplitcompose/MainActivity.kt:228-233 | the tip is zero exactly when the amount or the percentage is zero; non-negative inputs give a non-negative tip; a percentage of at most 100 never tips more than the amount |
| TipCalculation.TipMonotone | app/src/main/java/com/example/tipandsplitcompose/MainActivity.kt:228-233 | for a non-negative percentage, a larger amount never gives a smaller tip |
| TipCalculation.Ceiling | app/src/main/java/com/example/tipandsplitcompose/MainActivity.kt:245 | the ceiling is an integer `c` with `x <= c < x + 1` |
| TipCalculation.CeilingUnique | app/src/main/java/com/example/tipandsplitcompose/MainActivity.kt:245 | the ceiling is the only integer in `[x, x + 1)` |
| TipCalculation.CeilingLeast | app/src/main/java/com/example/tipandsplitcompose/MainActivity.kt:245 | every integer not below `x` is at least the ceiling of `x` |
| TipCalculation.CeilingFixesWhole | app/src/main/java/com/example/tipandsplitcompose/MainActivity.kt:244-245 | the ceiling leaves `x` unchanged if and only if `x` is whole |
| TipCalculation.Total | app/src/main/java/com/example/tipandsplitcompose/MainActivity.kt:235-248 | without round-up, the total times `people` gives back amount plus tip; with round-up, it is a whole value in `[(amount + tip) / people, (amount + tip) / people + 1)` |
| TipCalculation.PersonTotal | app/src/main/java/com/example/tipandsplitcompose/MainActivity.kt:251-256 | the share is finite if and only if `people != 0`, and then share times people is the grand total; for zero people it is positive infinity for a positive grand total, negative infinity for a negative one and NaN for zero |
| TipCalculation.RoundUpNeverLowers | app/src/main/java/com/example/tipandsplitcompose/MainActivity.kt:242-245 | round-up never lowers the total and raises it by less than one |
| TipCalculation.RoundUpIdempotent | app/src/main/java/com/example/tipandsplitcompose/MainActivity.kt:242-245 | the rounded total is its own ceiling; round-up changes the total if and only if the unrounded total has a fractional part |
| TipCalculation.RoundedSharesCoverBill | app/src/main/java/com/example/tipandsplitcompose/MainActivity.kt:242-245 | when each of a positive number of people pays the rounded-up total, together they pay at least the bill plus tip and less than one unit per person more |
| TipCalculation.SinglePersonTotal | app/src/main/java/com/example/tipandsplitcompose/MainActivity.kt:235-257 | with the default `people = 1`, the unrounded total is amount plus tip, and the person total for one person is the grand total |
| TipCalculation.TotalMonotoneInAmount | app/src/main/java/com/example/tipandsplitcompose/MainActivity.kt:228-248 | for a positive number of people and a non-negative percentage, a larger bill never gives a smaller total, rounded or not |
| Screen.Amount | app/src/main/java/com/example/tipandsplitcompose/MainActivity.kt:56 | unparsable bill text counts as 0.0, and parsed text counts as its value |
| Screen.People | app/src/main/java/com/example/tipandsplitcompose/MainActivity.kt:59 | unparsable people text counts as 1, and a parsed value is kept; the count is zero exactly when the text parsed to 0 |
| Screen.Derive | app/src/main/java/com/example/tipandsplitcompose/MainActivity.kt:55-71 | the tip percentage is the slider's tier and the tip is that percentage of the parsed bill; the grand total is `calculateTotal` of bill and tip with the default single person and the screen's round-up flag; the person total divides it by the parsed people count |
| Screen.InitialScreenIsZero | app/src/main/java/com/example/tipandsplitcompose/MainActivity.kt:55-71 | in the initial state (empty fields, slider at 0, no round-up) the percentage is 15 and the tip, grand total and person total are all 0 |
| Screen.UnparsableInputsDefault | app/src/main/java/com/example/tipandsplitcompose/MainActivity.kt:56-59 | unparsable bill and people text behave exactly like a bill of 0 and one person, and give a zero grand total |
| Screen.GrandTotalIsNotSplit | app/src/main/java/com/example/tipandsplitcompose/MainActivity.kt:69-71 | without round-up the grand total is bill plus tip whatever the people count; the person total times the people count is the grand total, and for one person equals it |
| Screen.RoundUpChangesOnlyTotal | app/src/main/java/com/example/tipandsplitcompose/MainActivity.kt:65-69 | the round-up switch leaves the percentage and the tip alone and raises the grand total to a whole value less than one above the unrounded one |
| Screen.ZeroPeopleIsNotFinite | app/src/main/java/com/example/tipandsplitcompose/MainActivity.kt:59-71 | people text that parses to 0 reaches the division unguarded: the person total is not finite, and the grand total is unaffected |
| Screen.SplitExample | app/src/main/java/com/example/tipandsplitcompose/MainActivity.kt:55-71 | a bill of 50 at the 18 % tier split two ways gives tip 9, grand total 59 and 29.5 per person, with or without round-up |

## Left out

- Compose UI and the Activity (`MainActivity.onCreate`, `EditNumberField`, `ServiceRatingSlider`, `RoundTheTipRow`, `DefaultPreview`), focus and keyboard handling, theming and string resources: presentation only.
- The `remember { mutableStateOf(...) }` holders: the model takes their current values as an `Inputs` value, because the derivation is a pure function of them.
- `NumberFormat.getCurrencyInstance().format`: locale-dependent library formatting. `PersonTotal` and `Derived` carry the numbers before formatting.
- The grammar of `toDoubleOrNull` / `toIntOrNull`: library parsers, modelled as an `Option` input.
- Tip: computed in exact real arithmetic. IEEE-754 rounding of `tipPercent / 100 * amount` is not modelled.
- Total: requires `people != 0`. Its only caller passes the default 1, and Kotlin would give infinity/NaN for an explicit 0.
- Ceiling: defined on finite reals only. Non-finite doubles (from parsing, such as "Infinity" or "NaN", or from overflow) are outside the model, because `Double` is modelled as exact `real`.
- PersonTotal: does not distinguish negative zero from positive zero. Every zero divisor comes from the `Int` 0, and `0.0 / 0` is NaN either way.
- The slider's Float-to-Int conversion and its 1..3 range with one step: widget behaviour. `TipPercent` accepts any `int`.
