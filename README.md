# Daily nutrition form: tip selection and input state

This project models the logic of a one-screen nutrition estimator written
with the Dioxus UI library. The screen holds two inputs, body weight and an
activity multiplier, and from them shows a rough daily estimate and a short
list of quick tips. Two pieces of it carry real logic, and both are modelled
here:

- **Tip selection** (`tips.dfy`, module `Tips`). `quick_tips` turns the
  activity multiplier into an ordered list of advice messages. Three
  independent threshold checks come first (`<= 1.25`, `>= 1.4`, `>= 1.6`),
  then two tips that are always added. The six messages are the datatype
  `Tip`, and `Text` gives the literal strings. `QuickTips` builds the list by
  concatenation, in the same order as the source's pushes. Its contract pins
  the list down completely: it holds exactly the tips the rule table `Shown`
  selects, in canonical order. `OrderedListingUnique` proves that these two
  facts fix the list, and `QuickTipsIsSelect` checks the construction against
  an independent reference that filters the canonical list. The five selector
  options are `ActivityLevel`, and `Multiplier` gives each option's value.
- **Input state** (`app.dfy`, module `App`). The two signal cells start at
  weight 70 and activity 1.1. They are the class `Signals`, with one method
  per input handler. The value-level functions `WeightEdited` and
  `ActivityEdited` specify those methods. A sequence of user edits is
  replayed by `Replay`. Lemmas about it show that weight never becomes
  negative, that the two cells never disturb each other, and that each cell
  holds what its last successfully parsed edit stored. `WaterBonus` is the
  `activity >= 1.6` test behind the extra 500 ml of water. It is proved to
  hold exactly when the fluids tip is shown.

Numbers are Dafny `real`. The source stores `f32`, but the only comparisons
modelled are the threshold tests. The five selector values (1.1, 1.25, 1.4,
1.6, 1.8) and their `f32` roundings fall on the same side of every
threshold, so the real-valued tests decide the same way. Parsing the text of
an input is a library call, so each handler takes its outcome as
`Option<real>`.

The weight handler does not reject a negative number. It stores
`max(v, 0)`, so a parsed negative number sets the weight to 0. Only a failed
parse keeps the old value (main.rs:50-54).

## Model

| member | source | states |
|---|---|---|
| `Tips.QuickTips` | main.rs:114-134 | The list holds a tip exactly when the rule table selects it (regular meals and spread protein iff activity <= 1.25, carbs iff >= 1.4, fluids iff >= 1.6, the two fat tips always), in canonical order and without repeats. Its length is 2 + 2·[a <= 1.25] + [a >= 1.4] + [a >= 1.6], always one of 2, 3 or 4. It starts with regular meals then spread protein exactly when a <= 1.25 and always ends with healthy fats then limit fried fats. The low-activity tips never appear with the carbs tip, and fluids implies carbs. |
| `Tips.Text` | main.rs:118-131 | Holds the six literal advice strings the source pushes, one per tip; each is an emoji followed by a sentence ending in a full stop. |
| `Tips.QuickTipTexts` | main.rs:114-134 | The returned list of strings, as `quick_tips` returns it: a tip's string appears exactly when the rule table selects that tip (the low-activity strings iff activity <= 1.25, the carbs string iff >= 1.4, the fluids string iff >= 1.6, the two fat strings always), each at the position of its tip. |
| `Tips.QuickTipTextsEnds` | main.rs:117-131 | The returned strings open with the meal-times string and then the protein string whenever activity <= 1.25, and always close with the healthy-fats string followed by the limit-fried-fats string. |
| `Tips.TextInjective` | main.rs:118-131 | The six tip strings are pairwise different. |
| `Tips.QuickTipTextsDistinct` | main.rs:114-134 | The rendered list never shows the same string twice. |
| `Tips.OrderedListingUnique` | main.rs:114-134 | Two canonically ordered tip lists with the same members are equal, so `QuickTips`'s contract determines its result. |
| `Tips.QuickTipsIsSelect` | main.rs:114-134 | The straight-line construction equals the reference definition: the canonical list of all six tips filtered by the rule table. |
| `Tips.Multiplier` | main.rs:68-72 | Holds the five selector values 1.1, 1.25, 1.4, 1.6 and 1.8. The first two are exactly the options at or below 1.25, the last three exactly those at or above 1.4, and the last two exactly those at or above 1.6. |
| `Tips.OptionTips` | main.rs:68-72 | The exact tip list for each of the five selector options. The lengths are 4, 4, 3, 4 and 4. |
| `App.Initial` | main.rs:9-10 | The form opens with a non-negative weight and the activity of the first selector option. |
| `App.ClampNonNegative` | main.rs:52 | `max(v, 0)` is at least 0 and at least v, and it is v or 0. |
| `App.WeightEdited` | main.rs:50-54 | A failed parse leaves the state unchanged. A parsed v >= 0 is stored exactly, and a negative v stores 0. Activity is never touched, and a non-negative weight stays non-negative. |
| `App.ActivityEdited` | main.rs:62-66 | A failed parse leaves the state unchanged. A parsed value is stored as is, and weight is never touched. |
| `App.Apply` | main.rs:50-66 | One handler invocation: a weight input never changes activity, a selector change never changes weight, and an edit whose parse failed changes nothing. |
| `App.Replay` | main.rs:50-66 | Successive handler invocations in order. Afterwards weight is either its starting value or the clamped value of some weight edit that parsed. Activity is either its starting value or the value of some selector change that parsed. |
| `App.ReplayKeepsWeightNonNegative` | main.rs:50-54 | No sequence of edits takes a non-negative weight below zero. |
| `App.WeightNeverNegative` | main.rs:9-54 | Starting from weight 70, weight is >= 0 after any sequence of weight and activity edits. |
| `App.WeightEditsKeepActivity` | main.rs:50-54 | A run of weight edits leaves activity unchanged. |
| `App.ActivityEditsKeepWeight` | main.rs:62-66 | A run of activity edits leaves weight unchanged. |
| `App.FailedEditsChangeNothing` | main.rs:50-66 | Edits whose parse failed leave both cells as they were. |
| `App.ReplayIsLatest` | main.rs:50-66 | After any edits, weight is the clamped value of the last weight edit that parsed, and activity is the value of the last activity edit that parsed. Each falls back to the starting value when there is no such edit. |
| `App.Signals.constructor` | main.rs:9-10 | The cells start at weight 70 and activity 1.1, and the invariant weight >= 0 holds. |
| `App.Signals.OnWeightInput` | main.rs:50-54 | The weight handler updates the cells exactly as `WeightEdited` says and keeps weight >= 0. |
| `App.Signals.OnActivityChange` | main.rs:62-66 | The activity handler updates the cells exactly as `ActivityEdited` says and keeps weight >= 0. |
| `App.Signals.CurrentTips` | main.rs:22-25 | The tips shown for the current activity include the fluids tip exactly when the water bonus applies. |
| `App.WaterBonus` | main.rs:22 | The 500 ml bonus condition (activity >= 1.6) holds exactly when `quick_tips` shows the fluids tip. |

## Left out

- The nutrition formulas for calories, protein, fat, used kcal, carbohydrates and water (main.rs:14-22). These are `f32` arithmetic, and a model over `real` would claim an exactness the code does not have. Only the boolean water-bonus test is modelled.
- The display rounding and the one-decimal litre formatting (main.rs:80-84).
- Parsing text to `f32` (main.rs:51, 63). This is a library call; its outcome is the `Option<real>` parameter of each handler.
- NaN and infinity. The `f32` parser accepts them, but they have no counterpart in `real`. NaN fails every threshold, and `NaN.max(0.0)` is 0.
- `f32` precision in general. Thresholds are compared over exact reals, which agrees with the code for the five selector values, but not for activity values other than the five options that lie within one `f32` rounding step of a threshold.
- The rendered element tree, application launch and the reactive re-render machinery (main.rs:3-5, 27-110). This is UI plumbing with no logic beyond displaying the values above.
