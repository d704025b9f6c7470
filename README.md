# Cooking bot decision engine, in Dafny

The bot plays a cooking mini-game from screenshots. Each poll it classifies the
screen as one of five cues: the menu, the "can cook" button, the "cannot cook"
button, the spatula of the quicktime event, and the "cooking done" plate. It then
clicks in response. This project models the decision engine beneath the screen
I/O and proves its properties:

- **Match selection** (`Matching`). A template is matched twice. Raw grayscale
  correlation is gated at 0.70 and edge-map correlation at 0.35. The better of
  the modes that pass wins, and a tie goes to raw. The winning top-left corner
  becomes a centre by adding half the template size, rounded down.
- **Priority classifier** (`Detection`). The cues are tried in the order
  spatula, done, cannot-cook, can-cook, menu, and the first match wins. A
  missing template never matches. Positions are shifted by the capture
  region's offset. When nothing matches, the answer is `(None, 0, 0, 0)`.
- **Colour disambiguator** (`ButtonColor`). It models `hex_to_rgb`,
  `color_dist` (Chebyshev distance) and the teal-versus-grey verdict. Teal is
  `#3ECDC3`, grey is `#BDC3C0`, and a tie counts as grey. It also models the
  start-button check: the can-cook icon is tried first, then the cannot-cook
  icon, and the pixel is sampled at the icon centre plus (1236, 919).
- **Per-poll state machine** (`Dispatch`). The memory is the current state,
  the button-colour flag, the click and dish counters and the frame number.
  A colour verdict overrides the detected state, except during the quicktime
  cue. Each state has a handler, and the main loop runs until a stop key, a
  capture failure or the cannot-cook state. `Poll` and `Run` give the
  behaviour on values. The class `Bot` performs it on its fields, and its
  methods are proved to agree with `Poll` and `Run`.
- **Region calibration and loading** (`Calibration`). The click callback
  records left presses and stops after the second. `set_region` validates the
  two clicks and stores `[int(x1), int(y1), int(x2), int(y2)]`. `load_region`
  turns a stored four-element list into `(x, y, w, h)`.

cooking_bot.py and LogHerehere.py implement the same engine. LogHerehere.py
only adds logging and a frame counter. The engine is modelled once, and both
files are cited below.

Inputs that are I/O in the program are parameters here:
- the correlation maxima and their locations (`Peak`);
- the sizes of the loaded templates (`Template`), each present or missing;
- whether the stop key was pressed before a poll;
- whether a capture raised;
- the screen's pixel colours (`pixelAt`, None where reading a pixel raises);
- the mouse events delivered to the calibration callback (a sequence);
- the content of the region file (the stored list, or None).

Clicks are appended to an action log.

Three behaviours of the code are worth stating plainly:
- The colour check also runs while the quicktime cue is detected. Its verdict
  is then discarded and the flag stays armed (cooking_bot.py:379, 425;
  `ButtonFlagDiscipline`, `VerdictOverridesDetection`).
- The done, can-cook and menu handlers are guarded by `current_state != …`
  (LogHerehere.py:600, 612, 626). But the current state is always nothing or
  quicktime at the top of a poll (`PollKeepsInvariant`). So the guards always
  pass, and a cue still visible on the next poll is clicked again
  (`DoneCueReclicks`).
- `load_region` does not check that the width and height are positive. Any
  four-element list loads (`LoadRegionInvertsCorners`). The calibration tool
  compares the clicks as delivered and stores their `int()` truncation
  (set_region.py:58, 64). Its stored extents are therefore never negative, and
  they are positive for whole-number clicks (`CalibratedRegionLoads`).
  Clicks a fraction of a pixel apart pass the check yet store a width of zero
  (`FractionalClicksCollapse`).

## Model

| member | source | states |
|---|---|---|
| `Matching.Select` | cooking_bot.py:154-163 | Defined as: raw is the candidate when it reaches its threshold, and edge replaces it when edge reaches its own threshold and either there is no candidate or edge is strictly greater. Proved in `MatchTemplate` and `BestPassingModeWins`. |
| `Matching.MatchTemplate` | cooking_bot.py:143-171 | No match exactly when raw is below its threshold and edge is below its threshold. Otherwise the chosen mode passes its own threshold, the score is that mode's maximum, and the centre is its corner plus (w // 2, h // 2). |
| `Matching.BestPassingModeWins` | cooking_bot.py:154-163 | The score is at least every passing maximum and at least the chosen mode's threshold. Edge beats a passing raw only when strictly greater, so a tie goes to raw. |
| `Matching.SinglePassingModeIsUsed` | LogHerehere.py:247-273 | When only one mode passes, the result is exactly that mode's centre, score and mode. |
| `Matching.CentreInsideMatchedBox` | cooking_bot.py:148-171 | The floor-division centre lies within the template-sized box at the winning corner. |
| `Detection.Rank` | cooking_bot.py:241 | Gives each state its position in the order spatula > done > cannot-cook > can-cook > menu. |
| `Detection.DetectState` | cooking_bot.py:233-278 | Defined as the chain of five checks: spatula, done, cannot-cook, can-cook, menu. Each check is skipped when its template is missing, and the first match returns its centre plus (ox, oy). Proved equal to the first-match search in `DetectStateIsFirstMatch`. |
| `Detection.MatchWith` | cooking_bot.py:244-245 | Defined as: a missing template gives no match; otherwise `match_template` at the default thresholds 0.70 and 0.35. |
| `Detection.FirstMatchIsFirst` | cooking_bot.py:241-278 | The reference first-match search returns the earliest matching state of the order, at its match position. If no state matches, it returns `(None, 0, 0, 0)`. |
| `Detection.DetectStateIsFirstMatch` | LogHerehere.py:350-407 | The source's chain of five checks equals the first match over the priority order. |
| `Detection.DetectedStateWinsPriority` | cooking_bot.py:241-276 | A detected state's cue matched and every higher-priority cue did not. The position is the match centre plus (ox, oy), and the score is the match score. |
| `Detection.NothingDetectedIffNoCueMatches` | cooking_bot.py:278 | Nothing is detected if and only if no cue matches, and the answer is then exactly `(None, 0, 0, 0)`. |
| `Detection.NeverLowerPriorityOrMissing` | LogHerehere.py:358-405 | A matching higher-priority cue excludes every lower state. A missing template never yields its state. |
| `ButtonColor.StripHashes` | LogHerehere.py:414 | `lstrip('#')` removes exactly the leading run of '#' characters and keeps the rest as a suffix. |
| `ButtonColor.Slice` | LogHerehere.py:415 | A Python slice `h[i:j]` clips at the end of the string. |
| `ButtonColor.HexDigit` | LogHerehere.py:415 | A hexadecimal digit of either case has a value below 16. |
| `ButtonColor.HexDigitTable` | LogHerehere.py:415 | A digit's value is its place in the table `0123456789abcdef` or `0123456789ABCDEF`, and exactly the characters outside both tables are refused. |
| `ButtonColor.ParseField` | LogHerehere.py:415 | A slice parses if and only if it has one or two characters, all hex digits. Its value is that digit, or 16 times the first digit plus the second. |
| `ButtonColor.HexToRgb` | LogHerehere.py:413-415 | Defined as: strip leading '#', parse the slices [0:2], [2:4] and [4:6] as hexadecimal, and fail if any slice fails. Proved in `HexRoundTrip` and `ReferenceColoursParse`. |
| `ButtonColor.HexRoundTrip` | cooking_bot.py:403-405 | `hex_to_rgb` inverts the `#RRGGBB` spelling for every colour. |
| `ButtonColor.ReferenceColoursParse` | cooking_bot.py:64-65 | `hex_to_rgb("#3ECDC3") = (62, 205, 195)` and `hex_to_rgb("#BDC3C0") = (189, 195, 192)`. |
| `ButtonColor.ColorDist` | LogHerehere.py:417-418 | The distance is the largest of the three absolute channel differences. |
| `ButtonColor.ColorDistIsMetric` | cooking_bot.py:407-408 | The distance is zero exactly on equal colours, is symmetric, and obeys the triangle inequality. |
| `ButtonColor.ReferenceColoursDistance` | cooking_bot.py:407-411 | dist(teal, grey) = 127 and dist(teal, teal) = 0. |
| `ButtonColor.ColorVerdict` | cooking_bot.py:410-419 | The verdict is can-cook if and only if dist_can < dist_cannot. Otherwise, ties included, it is cannot-cook. |
| `ButtonColor.VerdictWithinMargin` | LogHerehere.py:558-574 | A sample within 63 of teal is judged can-cook. A sample within 63 of grey is judged cannot-cook. |
| `ButtonColor.SamplePoint` | cooking_bot.py:391-397 | Defined as: the icon's centre inside the button capture plus the capture's corner (1236, 919). |
| `ButtonColor.ButtonIcon` | cooking_bot.py:386-397 | Defined as: the can-cook icon's match if found, otherwise the cannot-cook icon's match. Proved in `ButtonIconOrder`. |
| `ButtonColor.ButtonCheck` | cooking_bot.py:379-422 | Defined as: no verdict when anything before the pixel read raises (the button capture or an icon match), when no icon is found, or when the pixel read raises; otherwise the colour verdict of the pixel at the icon centre plus (1236, 919). Proved in `ButtonCheckDecides`. |
| `ButtonColor.ButtonCheckDecides` | cooking_bot.py:379-422 | A verdict exists exactly when the button area was captured, an icon was found and the pixel at its sample point was read. The verdict then follows the colour comparison. |
| `ButtonColor.ButtonIconOrder` | cooking_bot.py:387-397 | The can-cook icon is used when it is found. The cannot-cook icon is consulted only otherwise. With both templates missing, nothing is found. |
| `ButtonColor.ButtonCentre` | cooking_bot.py:55-61 | The override position is (1404, 980), strictly inside the button area. |
| `Dispatch.Handle` | LogHerehere.py:589-645 | Defined as the six state handlers on the loop variables, each with the clicks it emits and whether the loop goes on. Proved in the handler lemmas below and `HandleKeepsInvariant`. |
| `Dispatch.Verdict` | cooking_bot.py:379 | Defined as: the button check when the colour flag is armed, and no verdict otherwise. Proved in `ButtonFlagDiscipline`. |
| `Dispatch.Overrides` | cooking_bot.py:425 | Defined as: a verdict exists and the detected state is not the quicktime cue. Proved in `VerdictOverridesDetection`. |
| `Dispatch.OverrideDetection` | cooking_bot.py:426-427 | Defined as: the verdict at the button centre (1404, 980) with score 1.0. Proved in `VerdictOverridesDetection`. |
| `Dispatch.Poll` | LogHerehere.py:508-586 | Defined as one iteration: a stop check, the frame counter, capture, detection, the colour check and override, then `Handle`. Proved in `PollKeepsInvariant`, `StopEndsBeforeCapture`, `VerdictOverridesDetection` and `ButtonFlagDiscipline`. |
| `Dispatch.Run` | LogHerehere.py:507-648 | Defined as polls repeated until one ends the loop or the inputs run out, concatenating the clicks. Proved in `RunKeepsInvariant`, `SpatulaPollsClickEachTime` and `DoneCueReclicks`. |
| `Dispatch.QuicktimeClicksEveryPoll` | LogHerehere.py:589-597 | Every quicktime poll emits one click at (x, y) with double = DOUBLE_CLICK_SPATULA. The click count goes up by one and the current state is quicktime. |
| `Dispatch.DoneClicksOnce` | LogHerehere.py:599-609 | The done handler emits one double click at the detected position. The click and dish counts each go up by one, and the current state returns to nothing. |
| `Dispatch.CanCookClicksOnce` | LogHerehere.py:611-619 | The can-cook handler emits one double click at the detected position. The click count goes up by one and the current state returns to nothing. |
| `Dispatch.CannotCookStops` | LogHerehere.py:621-623 | Cannot-cook ends the run with no click and no change to the memory. |
| `Dispatch.MenuClicksTwiceAndArms` | LogHerehere.py:625-638 | The menu handler double-clicks the menu and then (220, 260). The click count goes up by two, the colour flag is armed and the current state returns to nothing. |
| `Dispatch.NothingDetectedIdles` | LogHerehere.py:640-645 | With no state there is no click and the counters and flag are unchanged. The current state becomes nothing. |
| `Dispatch.HandleKeepsInvariant` | LogHerehere.py:589-645 | Every handler leaves the current state nothing or quicktime and counts each click it emits. A handler that ends the run changes nothing. |
| `Dispatch.PollKeepsInvariant` | LogHerehere.py:500-645 | Between polls the current state is nothing or quicktime. The click count grows by the number of clicks emitted, and dish counts never outgrow click counts. |
| `Dispatch.StopEndsBeforeCapture` | LogHerehere.py:508 | A stop request ends the run before any capture, click or counter change. |
| `Dispatch.VerdictOverridesDetection` | cooking_bot.py:424-428 | An applied verdict is handled at (1404, 980) with score 1.0 and disarms the flag. Under the quicktime cue, or without a verdict, the detection is kept. |
| `Dispatch.ButtonFlagDiscipline` | LogHerehere.py:527-586 | While the flag is disarmed, the button capture and pixels do not matter. Without a verdict the flag stays armed. Only an applied override clears it. |
| `Dispatch.RunKeepsInvariant` | LogHerehere.py:507-648 | Over any number of polls, the invariant and the click and dish accounting hold. |
| `Dispatch.SpatulaPollsClickEachTime` | LogHerehere.py:589-597 | N consecutive quicktime polls emit exactly N clicks, one per poll at that poll's position. The click count grows by N and the dish count is unchanged. |
| `Dispatch.DoneCueReclicks` | LogHerehere.py:599-609 | With the colour flag disarmed, a done cue detected on two consecutive polls is clicked on both, and the dish count grows by two. |
| `Dispatch.Bot.constructor` | LogHerehere.py:497-505 | The loop starts with zero counters, no current state, no flag, and the offset of the loaded region (or (0, 0)). |
| `Dispatch.Bot.ClickAt` | LogHerehere.py:319-328 | A click appends one action to the log. |
| `Dispatch.Bot.Step` | LogHerehere.py:508-645 | One loop iteration updates the loop variables and the action log exactly as `Poll` says, and keeps the invariant. |
| `Dispatch.Bot.HandleState` | cooking_bot.py:430-488 | The imperative state handlers update the fields and log exactly as `Handle` says. |
| `Dispatch.Bot.Advance` | LogHerehere.py:508-648 | One pass of the loop body extends the run from the prefix already done. |
| `Dispatch.Bot.RunLoop` | LogHerehere.py:507-648 | The while loop leaves the fields, log and outcome exactly as `Run` over the polls says. |
| `Dispatch.RunBot` | cooking_bot.py:294-501 | Without the spatula template the bot does not start. Otherwise it runs with the loaded region's offset. The final click count equals the number of clicks issued, and the dish count never outgrows it. |
| `Dispatch.RunAdvance` | LogHerehere.py:507-509 | After a handled prefix, one more poll extends the whole run, or ends it. |
| `Calibration.LeftPresses` | set_region.py:35-37 | Defined as the positions of the recorded presses in the event stream, in order. `ClickListener.Join` is proved to agree with it, and `LeftPressesPrefix` proves its prefix property. |
| `Calibration.Recorded` | set_region.py:36 | Defined as: a press of the left button. Other buttons and releases are ignored. |
| `Calibration.LeftPressesPrefix` | set_region.py:35-37 | The presses recorded from a prefix of the events begin the presses of the whole stream. |
| `Calibration.ClickListener.constructor` | set_region.py:33 | The click list starts empty and the listener runs. |
| `Calibration.ClickListener.OnClick` | set_region.py:35-43 | Only left-button presses are appended, and the listener stops as soon as the second is recorded. |
| `Calibration.ClickListener.Join` | set_region.py:47-48 | The clicks are the first two left presses, and no event after the second press is consumed. |
| `Calibration.Trunc` | set_region.py:64 | Python's `int()` on a coordinate: the integer within one unit of it, toward zero. |
| `Calibration.TruncMonotone` | set_region.py:58-64 | Truncation preserves order, and it is the identity on whole numbers. |
| `Calibration.RegionRecord` | set_region.py:50-64 | A record exists if and only if there are two clicks with x1 < x2 and y1 < y2, compared as delivered. It is then the truncated [x1, y1, x2, y2] in click order. |
| `Calibration.SetRegion` | set_region.py:16-84 | The call returns True if and only if the first two left presses are strictly right of and below one another; it then writes the truncated [x1, y1, x2, y2]. With fewer than two presses, or a rejected pair, it returns False and the file is unchanged. |
| `Calibration.LoadRegionInvertsCorners` | cooking_bot.py:104-116 | Loading a four-element list gives (x1, y1, x2 - x1, y2 - y1), which converts back to the same list. Any other length loads nothing. |
| `Calibration.CalibratedRegionLoads` | set_region.py:54-72 | A calibrated region loads back with the truncated first click as origin and extents int(x2) - int(x1) and int(y2) - int(y1). These are never negative, and they are positive when the clicks are whole numbers. |
| `Calibration.FractionalClicksCollapse` | set_region.py:58-64 | Clicks at (100.2, 100.2) and (100.7, 200.0) pass the check, store [100, 100, 100, 200], and load as a region of width 0. |
| `Calibration.LoadRegion` | cooking_bot.py:104-116 | Defined as: a stored four-element list [x1, y1, x2, y2] gives (x1, y1, x2 - x1, y2 - y1), and anything else gives None. Proved in `LoadRegionInvertsCorners`. |
| `Calibration.Offset` | cooking_bot.py:360 | Defined as: the loaded region's top-left corner, or (0, 0) without a region. Used by `Bot.constructor` and `RunBot`. |
| `Calibration.BackwardsClicksRefused` | set_region.py:58-61 | (100,100) then (50,50) is refused, and so is a point not strictly below the first. |

## Left out

- The correlation itself (grayscale conversion, Gaussian blur, Canny edges, normalised cross-correlation, maximum search) is floating-point image processing; its maxima and locations are inputs, and floats are reals (no NaN or rounding).
- Screenshots, mouse moves and clicks, pixel reads and the keyboard listener are I/O: captures and pixels are inputs that may be absent (the call raised), clicks are an appended log, and the stop key is a per-poll boolean.
- The mouse listener thread of the calibration tool is modelled as the sequence of events it delivers; a listener ended from outside is the sequence running out.
- Sleep durations, the `input()` prompts, the region preview animation, logging (including the debug dictionary of the verbose `match_template`) and the command-line `main` are not modelled; they do not influence any decision.
- JSON reading and writing: the region file is the list stored under "region" (None when absent or not parseable), and `int(v)` conversion of its entries is not modelled.
- `pyautogui.FailSafeException` and `KeyboardInterrupt` end the run in the program; they are not represented as poll inputs.
- The unused constants `MAX_CLICKS_PER_FOUND` and `BTN_COLOR_TOLERANCE`, and `REGION_START_BTN` (only the capture of the button area uses it), are not modelled.
- The main loop runs over a finite sequence of poll inputs, stopping early as the program does; an unbounded run is any prefix of it.
- printposition.py is not part of this model.
- ButtonColor.HexToRgb: accepts only hexadecimal digits in each slice, whereas Python's `int(s, 16)` also accepts surrounding whitespace and non-ASCII digits, and a leading sign (`"+3"` gives 3, `"-3"` gives -3, a negative channel `Channel` cannot represent); the program only ever parses its two constants.
