# Fish tab decision logic of GatherBuddy

GatherBuddy's fish tab (`Gui/TabFish.cs`) draws one table row per fish and a
set of option controls under the table. Most of the file calls a GUI library.
This project models the decisions the file makes itself:

- `Duration` models the duration formatter `PrintSeconds`. It picks "Days",
  "HH:MM Hours" or "MM:SS Minutes" with strict comparisons, and divides the way a
  C# `long` divides (truncating toward zero).
- `Uptime` models the wait / uptime cell. A fish's next uptime is always up,
  unknown, or a timed window. A timed window shows one of three things: a
  countdown to its start, the time left until its end, or nothing (the silent
  fall-through). The colour depends on the intuition / mooch dependency flag.
- `FishRow` models the rest of the row decisions. These are the bait cell (a
  placeholder when the bait list is empty, else the first bait) and the click
  events a row sends. It also holds the direct drawing loop and the switch
  between direct and clipped drawing of the table. A spot click on a fish with
  no fishing spots throws, which ends the loop and the rest of the tab.
- `FishOptions` models the option controls. The class `FishTab` has one method
  per control and writes the configuration fields the way the source does. It
  records each save and each recompute of the fish cache as an effect, in call
  order. The pure functions `Checkbox` and `PatchCombo` state each control's
  transition, and lemmas about them give the counts and the order of effects.

Times are whole seconds. The clock is an integer `now` parameter. The uptime
calculator's result is a field of each fish. Persistence and the fish cache's
recompute are recorded as effects rather than performed.

Two boundary behaviours of the code:

- The tests are strict. Exactly one day (86400 s) is shown as `24:00 Hours`,
  not as `1.00 Days`. Exactly one hour is shown as `60:00 Minutes`.
- In the available state the code prints `-(now - end)`. That is the time
  remaining until the window ends, not the time elapsed since it started. A
  window that began 5 s ago and ends in 55 s shows 55 s (`Uptime.RemainingExample`).

## Model

| member | source | states |
|---|---|---|
| `Duration.PrintSeconds` | Gui/TabFish.cs:15-23 | Days form exactly when seconds > 86400, hours form exactly when 3600 < seconds <= 86400, minutes form exactly when seconds <= 3600; the days form is computed from the input seconds |
| `Duration.TruncatedDivision` | Gui/TabFish.cs:20-22 | C# `long` division and remainder recompose the dividend; the remainder has the dividend's sign and is smaller than the divisor in magnitude |
| `Duration.PrintSecondsBoundaries` | Gui/TabFish.cs:17-22 | 86400 s prints 24 hours 0 minutes, 86401 s prints days, 3600 s prints 60 minutes 0 seconds, 3601 s prints 1 hour 0 minutes |
| `Duration.HoursFields` | Gui/TabFish.cs:19-20 | in the hours form, hours lie in 1..24 and minutes in 0..59, and hours:minutes is the input rounded down to a whole minute |
| `Duration.MinutesFields` | Gui/TabFish.cs:21-22 | for 0 <= seconds <= 3600, minutes*60 + secs == seconds, secs in 0..59, minutes in 0..60, and minutes is 60 only at exactly one hour |
| `Duration.NegativeMinutes` | Gui/TabFish.cs:21-22 | a negative input takes the minutes form, still recomposes exactly, and has non-positive fields because division truncates |
| `Duration.ShownSecondsRoundTrip` | Gui/TabFish.cs:15-23 | reading any display of a non-negative input back gives the input, or (hours form) the input less its seconds within the minute |
| `Uptime.DrawUptime` | Gui/TabFish.cs:45-85 | Always gives "Always Up" in the dependent or normal available colour according to the flag, with the warning on hover exactly when dependent; Unknown gives "Unknown" in the upcoming colour without any timed computation; a timed window gives a timed cell |
| `Uptime.TimedPhases` | Gui/TabFish.cs:61-77 | countdown exactly when now < start, printing start - now > 0; remaining time exactly when start <= now < end, printing end - now > 0; nothing exactly when start <= now and end <= now; the three are exclusive and cover every case; the countdown is in the dependent upcoming colour when the flag is set and the upcoming colour otherwise, the remaining time in the dependent available colour when set and the available colour otherwise |
| `Uptime.PhasesAdvance` | Gui/TabFish.cs:63-77 | for a fixed window, a later `now` never moves the cell back from nothing to remaining time or from remaining time to countdown |
| `Uptime.WellFormedWindow` | Gui/TabFish.cs:63-77 | for start < end, nothing is printed exactly when the end has passed, and the remaining time never exceeds the window length |
| `Uptime.PrintedFieldsInRange` | Gui/TabFish.cs:63-76 | every number the cell prints is positive, its display reads back to it within a minute, and the minutes and hours fields are in range |
| `Uptime.CountdownExample` | Gui/TabFish.cs:65-70 | start = now + 10, end = start + 60 shows a 00:10 minutes countdown in the upcoming colour |
| `Uptime.RemainingExample` | Gui/TabFish.cs:71-76 | start = now - 5, end = now + 55 shows 00:55 minutes remaining in the available colour |
| `FishRow.DrawBait` | Gui/TabFish.cs:93-116 | "Unknown Bait" exactly when the bait list is empty, otherwise the icon and name of element 0 |
| `FishRow.RowActions` | Gui/TabFish.cs:37-120 | a fish action for this fish exactly when the name is clicked; a copy of the first bait's name exactly when the bait is clicked and a bait exists; the first fishing spot exactly when the spot is clicked and a spot exists; at most one event per clicked cell, in column order name, bait, spot; a spot click on a fish without spots throws (`First()`) after the earlier events are sent |
| `FishRow.DrawFish` | Gui/TabFish.cs:25-126 | the row's uptime cell is the uptime branch for the fish's next uptime and dependency flag, its bait cell is the bait branch (placeholder exactly when no bait), and icon, name, uptime percentage, spot and zone come from the fish |
| `FishRow.DrawAllRows` | Gui/TabFish.cs:261-270 | the direct path draws rows in list order, each as `DrawFish` of its fish, and sends the rows' events in order; it draws every row unless a row's spot click throws, in which case that row is the last one drawn and the rest of the tab is abandoned |
| `FishRow.LineHeight` | Gui/TabFish.cs:213 | the row count is the window height over the text height rounded up, plus one |
| `FishRow.ChooseDraw` | Gui/TabFish.cs:261-272 | direct drawing exactly when count < lineHeight + 5 and the table could be begun; BeginTable is called only when count < lineHeight + 5; every other case takes the clipped path |
| `FishRow.LongListsStayClipped` | Gui/TabFish.cs:261-272 | a list long enough for the clipped path stays clipped when it grows, and BeginTable is not called for it |
| `FishOptions.SetFlag` | Gui/TabFish.cs:128-164 | a checkbox writes its own flag and leaves the other four flags and the patch byte unchanged |
| `FishOptions.Checkbox` | Gui/TabFish.cs:128-164 | a checkbox callback writes its flag, keeps the selector and every earlier effect, and appends one recompute seeing the new flag for every box except "Show Already Caught", which appends nothing |
| `FishOptions.CheckboxEffects` | Gui/TabFish.cs:128-164 | each checkbox callback writes only its own flag, keeps every earlier effect, and does not itself save; "Show Already Caught" triggers zero recomputes and each of the other four exactly one, which sees the new flag |
| `FishOptions.PatchCombo` | Gui/TabFish.cs:166-180 | no change unless the combo reports an index different from the stored byte; on a change the byte is the index mod 256 and the flags are kept; it throws exactly when there is no selector for the index, and then nothing is saved or recomputed and the selector is kept; earlier effects are always kept |
| `FishOptions.PatchComboUnchanged` | Gui/TabFish.cs:169-170 | selecting the stored index changes nothing, and neither does any index when the combo reports no selection |
| `FishOptions.PatchComboChanged` | Gui/TabFish.cs:170-176 | a different index with a selector stores the index as a byte, keeps the flags, binds selector = PatchSelector[tmp], and appends one save followed by one recompute that sees the new selector |
| `FishOptions.PatchComboIdempotent` | Gui/TabFish.cs:169-176 | for an index below 256, choosing the same entry twice has the effect of choosing it once |
| `FishOptions.FishTab.SetCurrentlyRelevantFish` | Gui/TabFish.cs:175 | records one recompute, with the configuration and selector current at the call |
| `FishOptions.FishTab.Save` | Gui/TabFish.cs:174 | records one save of the current configuration |
| `FishOptions.FishTab.DrawAlreadyCaughtBox` | Gui/TabFish.cs:128-130 | the new state is the "Show Already Caught" checkbox transition: flag written, no recompute |
| `FishOptions.FishTab.DrawAlwaysUpBox` | Gui/TabFish.cs:132-138 | the new state is the "Show Always Up" transition: flag written, then one recompute |
| `FishOptions.FishTab.DrawBigFishBox` | Gui/TabFish.cs:140-146 | the new state is the "Show Big Fish" transition: flag written, then one recompute |
| `FishOptions.FishTab.DrawSmallFishBox` | Gui/TabFish.cs:148-155 | the new state is the "Show Small Fish" transition: flag written, then one recompute |
| `FishOptions.FishTab.DrawSpearFishBox` | Gui/TabFish.cs:157-164 | the new state is the "Show Spearfishing" transition: flag written, then one recompute |
| `FishOptions.FishTab.DrawReleasePatchCombo` | Gui/TabFish.cs:166-180 | the new state and the exception flag are the patch combo transition: it changes only when the combo reports an index different from the stored one |

## Left out

- All GUI library calls: table setup and headers, columns, images, tooltips, colour pushes, child windows, the per-column width arithmetic and the `%Uptime` padding. They are presentation over a foreign library and pixel arithmetic in floating point.
- `ClippedDraw`, the clipped drawing path, is not part of this model. Only the choice to take it is modelled.
- `Duration.PrintSeconds`: the "Days" form keeps the input seconds, not the two decimals printed from a float division with `F2` rounding. The `D2` zero padding of the other two forms is not modelled as text.
- `Uptime.DrawUptime`: `now` is one integer for both clock reads. The source reads `DateTime.UtcNow` twice and truncates two `double` `TotalSeconds` to `long`. The local-time text of the hover tooltip is not modelled.
- `FishRow.DrawAllRows`: one `now` serves every row of the frame. The source reads the clock twice per row (lines 63-64), so rows drawn later in a frame see a later time.
- `FishRow.DrawAllRows`: the row whose spot click throws is recorded as drawn whole, although its zone column (line 125) is not drawn. The `finally` that ends the table (lines 267-270) is GUI work and is not modelled. The clipped path can throw the same way, and is not modelled.
- Integer width: seconds are unbounded integers. `DateTime` differences stay far inside the `long` range, so the source's 64-bit wrap-around cannot arise.
- `FishRow.LineHeight`: computed over real numbers instead of single-precision floats.
- `NextUptime` and the weather manager: each fish carries its computed next uptime as an input.
- The fish cache's filtering and recompute (`SetCurrentlyRelevantFish`, `GetFishToSettings`) and the four text filters with their `Update*Filter` calls (lines 188-204). The cache is not part of this model. A recompute is recorded as an effect, and filter text entry does nothing else in this file.
- `Save` persistence and the gatherer's action handlers: they are external, so saves are recorded as effects and clicks as `FishRow.Action` values.
- `FishOptions.CheckboxEffects`: saving by `DrawCheckbox` is not modelled. `DrawCheckbox` is not part of this model, so the lemma states only that the callbacks themselves do not save. The `FishTab.Draw*Box` methods take the new value and model only the callbacks at lines 128-164. Whether a toggle is persisted on change is not captured.
- `FishOptions.PatchCombo`: the patch names and `PatchSelector` come from the fish cache. Selectors are modelled as indices, and the combo widget's result is an input, an index below the number of patch names. The two lists' lengths are independent inputs. An index with no selector is stored as a byte and then throws (lines 172-173); the model reports this as `threw` and does not model what the exception does to the rest of the frame.
