# Whack-a-mole session and mole logic in Dafny

This project models the game logic of a small Unity whack-a-mole game. Two scripts make up that logic:

- `GameManager1.cs` is the session controller. It holds the score, the countdown, the `playing` flag and the set of moles currently out. Its per-frame `Update` runs the clock down, ends the game at zero, refreshes the time label and keeps spawning moles.
- `Mole.cs` is one slot of the mole pool. Activation gives it a category (a standard mole, or a bomb, knife, gun or drug). The player may press it while it is hittable. A show/hide timeline ends its appearance, a quick-hide timer follows a press, and the manager can stop it.

The model has four modules.

- **Moles** (`moles.dfy`) covers one mole.
  - `Step` is a pure function that gives the effect of every event on a `MoleState`, together with the call (a `Report`) the mole makes on its manager.
  - The class `Mole` holds the same state in fields. Each event method is proved to change that state exactly as `Step` says. The two steps of an activation are proved against their own functions: `SetLevel` against `Leveled`, and `CreateNext` against `Drawn`.
  - The lemmas about `Step` cover:
    - the category buckets;
    - the fixed level settings;
    - the outcome of a press and of a timeline end;
    - that stopping is idempotent;
    - the quick-hide guard.
  - Over any run of events, an activation is followed by at most one `AddScore`/`Missed` report. It is followed by exactly one report if the mole is neither stopped nor re-activated before a timeline ends. With a manager, that report is an `AddScore` or `Missed` call on it. Without one, it is the miss call that fails on the null reference.
- **Spawning** (`spawning.dfy`) is the spawn loop of one frame as a pure function over a sequence of random draws. Its lemmas prove that:
  - the loop only adds idle slots, with the roll of the draw that hit them;
  - it stops only above the cap, and fills to exactly the cap plus one;
  - a draw that hits an active slot is retried in the same frame;
  - with a pool of 1 to maxActiveMoles moles, it never fills.
- **TimeDisplay** (`time_display.dfy`) is the `M:SS` label and its red/white choice. `ParseTimeText` reads a label back, and the round trip shows the text is exactly the whole seconds remaining.
- **Session** (`session.dfy`) covers the manager.
  - The class `GameManager` has the source's fields. Moles are addressed by pool index: the pool holds distinct moles, and `StartGame` gives mole `i` the index `i`.
  - The spawn loop is a `while` loop proved against `Spawning.SpawnRun`, one iteration at a time (`SpawnStep`, `TrySpawn`).
  - `PressMole` and `EndShowHide` deliver a mole's report to the manager.

Random numbers (`Random.Range`) and the frame time (`Time.deltaTime`) are parameters.

## Model

| member | source | states |
|---|---|---|
| Moles.PickType | Assets/Scripts/Mole.cs:148-165 | Bomb exactly when the draw is below the bomb rate |
| Moles.PickTypeBuckets | Assets/Scripts/Mole.cs:150-165 | with non-negative rates, the picked category is the one whose cumulative-threshold interval holds the draw; Standard iff the draw is at or above the sum of the four rates |
| Moles.LevelThresholds | Assets/Scripts/Mole.cs:171-180 | after SetLevel the buckets are [0, 0.05) Bomb, [0.05, 0.10) Knife, [0.10, 0.15) Gun, [0.15, 0.20) Drug, and Standard from 0.20 on |
| Moles.Points | Assets/Scripts/Mole.cs:118-139 | a press is worth 1 for a Standard mole and 0 for every other category |
| Moles.Leveled | Assets/Scripts/Mole.cs:171-180 | SetLevel installs duration 1.5 and all four rates 0.05, and leaves everything else as it was |
| Moles.Drawn | Assets/Scripts/Mole.cs:148-168 | CreateNext always leaves the mole hittable, with the category PickType gives for its rates, and changes nothing else |
| Moles.Step | Assets/Scripts/Mole.cs:87-212 | every report requires a hittable mole and leaves it non-hittable; only activation makes a mole hittable, and it never reports; a report names the mole's own index; only SetIndex changes the index |
| Moles.ActivationIgnoresLevel | Assets/Scripts/Mole.cs:171-180 | Activate's outcome does not depend on the level; the category comes from the level rates, with duration 1.5 |
| Moles.PressOutcome | Assets/Scripts/Mole.cs:112-146 | a press on a hittable mole with a manager reports AddScore(moleIndex, points) once, clears hittable, cancels the timelines and starts the quick-hide timer; with no manager or not hittable, nothing changes and nothing is reported |
| Moles.TimelineEndOutcome | Assets/Scripts/Mole.cs:83-92 | at the end of a timeline the mole is hidden and not hittable; a still-hittable mole reports Missed(moleIndex, not a bomb), or fails on a missing manager; otherwise nothing is reported |
| Moles.StopIdempotent | Assets/Scripts/Mole.cs:208-212 | StopGame clears hittable, cancels every timer and hides the mole; a second StopGame changes nothing |
| Moles.QuickHideGuard | Assets/Scripts/Mole.cs:102-110 | quick-hide hides the mole only if it is not hittable, so a re-activated mole stays up |
| Moles.AtMostOneReport | Assets/Scripts/Mole.cs:88-91 | with no activation in between, a mole reports at most once, and never unless it starts hittable |
| Moles.ActivationReportsAtMostOnce | Assets/Scripts/Mole.cs:117-144 | an activation is followed by at most one AddScore or Missed before the next activation |
| Moles.ExactlyOneReport | Assets/Scripts/Mole.cs:87-92 | a hittable mole with a running timeline that is not stopped or re-activated reports exactly once by the time a timeline ends |
| Moles.ActivationReportsOnce | Assets/Scripts/Mole.cs:196-200 | after an activation, unless the mole is stopped or activated again, exactly one report follows by the time a timeline ends |
| Moles.ManagerCallsOnly | Assets/Scripts/Mole.cs:112-116 | a mole with a manager never makes the failing miss call, over any run of events |
| Moles.ActivationCallsManagerOnce | Assets/Scripts/Mole.cs:87-144 | with a manager, an activation that is not stopped or repeated leads to exactly one call, AddScore or Missed, on that manager by the time a timeline ends |
| Moles.Mole.constructor | Assets/Scripts/Mole.cs:25-46 | the field initialisers: hittable, Standard, rates 0.08, duration 1.3, index 0, no timers |
| Moles.Mole.SetLevel | Assets/Scripts/Mole.cs:171-180 | the new state is Leveled of the old one |
| Moles.Mole.CreateNext | Assets/Scripts/Mole.cs:148-168 | the if-chain leaves the state Drawn of the old one: the category PickType names, and hittable |
| Moles.Mole.Activate | Assets/Scripts/Mole.cs:196-200 | moves the state as Step does for an activation, with no report |
| Moles.Mole.OnMouseDown | Assets/Scripts/Mole.cs:112-146 | moves the state and returns the report as Step does for a press |
| Moles.Mole.ShowHideEnds | Assets/Scripts/Mole.cs:83-92 | moves the state and returns the report as Step does for a timeline end |
| Moles.Mole.QuickHide | Assets/Scripts/Mole.cs:102-110 | moves the state as Step does when the quick-hide timer fires |
| Moles.Mole.Hide | Assets/Scripts/Mole.cs:95-100 | hides the mole and changes nothing else |
| Moles.Mole.SetIndex | Assets/Scripts/Mole.cs:203-205 | sets the index and changes nothing else |
| Moles.Mole.StopGame | Assets/Scripts/Mole.cs:208-212 | moves the state as Step does for a stop |
| Spawning.SpawnFrom | Assets/Scripts/GameManager1.cs:84-92 | the loop never takes more draws than it is given |
| Spawning.SpawnAdds | Assets/Scripts/GameManager1.cs:88-91 | the loop only adds to the active set; an index is added exactly when it is activated; an earlier activation keeps its roll |
| Spawning.SpawnRun | Assets/Scripts/GameManager1.cs:84-92 | the active set at exit is the old one plus exactly the newly activated indices, which were all idle |
| Spawning.SpawnExit | Assets/Scripts/GameManager1.cs:84 | the loop exits only with more than maxActiveMoles active, short of which it consumes every draw |
| Spawning.SpawnedFromDraws | Assets/Scripts/GameManager1.cs:86-91 | every activated index was drawn, with that draw's roll; each iteration adds at most one index |
| Spawning.FillsToCapPlusOne | Assets/Scripts/GameManager1.cs:84 | from at most maxActiveMoles + 1 active, a loop that fills stops at exactly maxActiveMoles + 1 |
| Spawning.CollisionsRetryInFrame | Assets/Scripts/GameManager1.cs:87-89 | draws that hit active moles are consumed in the same frame and activate nothing |
| Spawning.FreshDrawsAllSpawn | Assets/Scripts/GameManager1.cs:88-91 | while the cap leaves room, distinct idle draws are all taken, each activating its slot with its own roll |
| Spawning.SmallPoolNeverFills | Assets/Scripts/GameManager1.cs:84-86 | with a pool of 1 to maxActiveMoles moles, every draw is consumed and the loop never reaches its exit condition |
| TimeDisplay.DecimalText | Assets/Scripts/GameManager1.cs:97 | the minutes are decimal digits with no leading zero |
| TimeDisplay.DecimalRoundTrip | Assets/Scripts/GameManager1.cs:97 | reading the minutes text back gives the number |
| TimeDisplay.WholeSeconds | Assets/Scripts/GameManager1.cs:97 | the cast to int of a non-negative time is its whole seconds |
| TimeDisplay.TimeText | Assets/Scripts/GameManager1.cs:97 | minutes, a colon, and exactly two digits of seconds, which lie in 0..59 |
| TimeDisplay.ParseTimeText | Assets/Scripts/GameManager1.cs:97 | a parsed M:SS text is a non-negative number of seconds |
| TimeDisplay.TimeTextRoundTrip | Assets/Scripts/GameManager1.cs:97 | parsing the text gives back the whole seconds remaining |
| TimeDisplay.TimeTextSameIff | Assets/Scripts/GameManager1.cs:97 | two times show the same text iff they have the same whole seconds |
| TimeDisplay.TimeTextUnderAMinute | Assets/Scripts/GameManager1.cs:97 | under a minute the text is four characters starting with 0 |
| TimeDisplay.Label | Assets/Scripts/GameManager1.cs:95-104 | the label is red iff at most 10 seconds remain, and its text reads back as the whole seconds |
| Session.Level | Assets/Scripts/GameManager1.cs:90 | score / 10 truncating toward zero |
| Session.Countdown | Assets/Scripts/GameManager1.cs:76-80 | the clock never goes negative; it is exactly 0 iff the frame time reached it, otherwise lowered by the frame time |
| Session.GameManager.constructor | Assets/Scripts/GameManager1.cs:24-27 | the field initialisers: not playing, nothing active |
| Session.GameManager.StartGame | Assets/Scripts/GameManager1.cs:30-49 | score 0, 30 seconds, playing, nothing active; every mole hidden and given its pool index |
| Session.GameManager.GameOver | Assets/Scripts/GameManager1.cs:51-70 | not playing, every mole stopped; the active set, score and clock are left as they are |
| Session.GameManager.AddScore | Assets/Scripts/GameManager1.cs:114-122 | score raised by the amount, exactly that index removed from the active set |
| Session.GameManager.Missed | Assets/Scripts/GameManager1.cs:124-131 | exactly that index removed; score and clock unchanged, as the time penalty is commented out |
| Session.GameManager.TrySpawn | Assets/Scripts/GameManager1.cs:88-91 | one iteration: an idle slot is added and activated at the current level; an active one is left alone; no other mole changes |
| Session.GameManager.SpawnStep | Assets/Scripts/GameManager1.cs:84-92 | one iteration keeps the loop invariant against SpawnRun |
| Session.GameManager.SpawnMoles | Assets/Scripts/GameManager1.cs:84-92 | the active set and the mole states after the loop are those SpawnRun gives: exactly the newly added slots are activated, each with its draw's roll |
| Session.GameManager.Tick | Assets/Scripts/GameManager1.cs:76-81 | the clock is Countdown of the old one; playing iff time remains; the game-ending frame stops every mole; the label is Label of the new time |
| Session.GameManager.Update | Assets/Scripts/GameManager1.cs:73-94 | when not playing nothing changes; otherwise Tick followed by the spawn loop, also in the frame that ended the game |
| Session.GameManager.UpdateStoppingAtGameOver | Assets/Scripts/GameManager1.cs:73-94 | as Update, but the game-ending frame spawns nothing and leaves no mole hittable |
| Session.Deliver | Assets/Scripts/GameManager1.cs:114-131 | a mole's AddScore or Missed reaches the manager's method of that name; no report changes nothing |
| Session.PressMole | Assets/Scripts/Mole.cs:117-144 | a press on a hittable slot with a manager raises the score by its points and removes it from the active set; any other press changes neither |
| Session.EndShowHide | Assets/Scripts/Mole.cs:87-92 | a timeline end removes a still-hittable slot from the active set and never changes the score |
| Session.EndingFrame | Assets/Scripts/GameManager1.cs:76-92 | six moles, one frame using all 30 seconds: the game is over and every mole is hittable (a frame time the engine would cap; LastFrameRespawns shows the same in ordinary play) |
| Session.LastFrameRespawns | Assets/Scripts/GameManager1.cs:76-92 | from ordinary play with five moles out, the frame that uses up the clock ends the game, and the drawn idle mole is then activated and left hittable |
| Session.SpawnAfterGameOver | Assets/Scripts/GameManager1.cs:30-92 | the same frame, on a game built from scratch |

## Left out

- Rendering: sprites, `transform.localPosition`, the `Vector2.Lerp` of position and collider. A hidden pose is the flag `hidden`.
- Coroutine timing: `WaitForSeconds`, the per-frame `elapsed` loops in `ShowHide`, `StartCoroutine`/`StopAllCoroutines`. A timeline end and the quick-hide timer are events. `showHides` counts the running show/hide timelines and `quickHidePending` marks the timer.
- Randomness: the drawn slot and the category roll are inputs. Distributions are not modelled.
- Float arithmetic: times and rates are `real`. IEEE rounding (for example `0.05f + 0.05f`) is not modelled.
- UI: `SetActive`, the score and final-score texts, and `Debug.LogError`. Only the time label's text and colour are outputs.
- Engine lookup (`Awake`, `FindObjectOfType`): the manager reference is the flag `hasManager`. The miss call on a missing manager fails with a null reference. It is the report `MissedWithoutManager`, which changes no manager state.
- Commented-out features: the time penalty, the time bar, the out-of-time/bomb texts and the hard-hat mole.
- A mole calls its manager directly. Here it returns the call (`Report`), and `Session.Deliver` makes it on the manager. The effect on the manager is the same.
- Session.PressMole: a press reaches a slot whatever its pose. In the game, a hidden mole's collider has zero height and cannot be clicked.
- Session.GameManager.SpawnMoles: the loop also stops when the supplied draws run out. In the game it would keep drawing, so exit above the cap (`Spawning.SpawnExit`) holds only when enough draws are supplied, and `Spawning.SmallPoolNeverFills` stands for the hang with a pool of 1 to maxActiveMoles moles.
- Session.GameManager.SpawnMoles: the empty pool is not modelled. Its draws require an index into the pool. In the game, with no moles, `moles[index]` throws on every playing frame, after the clock and the label have been updated. The game still ends when the clock runs out.
- TimeDisplay.Label: requires a non-negative time, which the manager's invariant guarantees. For negative times the cast truncates toward zero, unlike `Floor`, and that case is not modelled.
- Session.GameManager.Valid: requires every mole's index to be a valid pool index, as `AddScore` and `Missed` look the mole up by it.

## Findings

`Update` does not return after calling `GameOver`. It carries on with the label and the spawn loop in the same frame, and that loop re-activates moles that `GameOver` has just stopped. The model's `Update` does the same.

| source | as written | input that shows it | evidently intended | confidence | as-written member | corrected member |
|---|---|---|---|---|---|---|
| Assets/Scripts/GameManager1.cs:76-92 | after `GameOver()` the same frame still runs the spawn loop, so stopped moles become hittable again after the game has ended | a game in play with five moles out and an idle mole k; one frame whose frame time equals the time remaining, drawing k | the frame that ends the game spawns nothing, and every mole stays stopped | high, not executed | Session.LastFrameRespawns | Session.GameManager.UpdateStoppingAtGameOver |
