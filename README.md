# AVR field controls: a verified model

This project models the game logic of the AVR 2023 field-control system. It
is written in Dafny, and it states and proves properties of that model. The
field has these parts:

- **Fire buildings** each have a state machine with three states: idle,
  on fire and extinguished. Every ball or laser hit lowers a fire level by
  one and adds one to the building's score. An extinguished building can
  re-ignite itself.
- **Heater buildings** are two-state machines.
- **The match engine** is a six-phase machine: idle, staging, phase 1, 2
  and 3, and post-match. It arms a phase timer and a match timer, lights
  every fire building in phase 3, draws a hotspot heater, and sums the
  score.
- **The controller** routes the messages that buildings and the operator
  interface publish. It also computes each building's LED progress bar,
  window relays, hopper relay and heater relay, and the labels shown on the
  operator screen.
- **The building firmware** parses the `r,g,b/r,g,b/...` LED instruction
  string into a 30 × 3 array and debounces ball-drop interrupts.
- **The earlier building and match machines** are kept side by side with
  the current ones.

## How it is modelled

Each source class that updates its fields in place is a Dafny `class` with
the same fields. Every class has a `View()` snapshot datatype. Each method
is proved against a pure function of the old snapshot, for example
`View() == AfterDouse(old(View()))`. The properties themselves are stated
on those functions and in lemmas about them.

The state-machine library the Python code uses is modelled directly:

- the current state's handler for the event runs first;
- then the transition table is consulted, with its condition if one is
  given;
- on a transition, the old state's exit handler runs, then the state
  changes, then the new state's enter handler runs;
- initialising the machine does not run the enter handler;
- an event literally named `enter` or `exit` runs the current state's own
  handler of that name.

Threads, sleeps and timers become explicit steps:

- Each countdown timer's one-second loop becomes `Timer.Tick`. The callback
  it would call (`phase_i_timeout` and the others, `src/match.py` lines
  185-192) becomes the event name that `Tick` returns, which is then
  dispatched.
- A fire building's one-second re-ignition thread becomes a counter of
  pending re-ignitions, and `ReignitionFires` fires one of them.
- The earlier match's 90-second sleepers become a queue of pending timeout
  events.

Other inputs become parameters:

- The millisecond clock `millis()` is the parameter `now`.
- `random.choice` is a ghost index `pick`.

Each module matches one source file:

| module | file | source |
|---|---|---|
| `Common` | `common.dfy` | `Option`, pixels, unsigned 32-bit subtraction and the debounce rule |
| `Buildings` | `buildings.dfy` | `controller_modules/controller/src/buildings.py` |
| `Match` | `match.dfy` | `controller_modules/controller/src/match.py` |
| `Controller` | `controller.dfy` | `controller_modules/controller/src/controller.py` |
| `Firmware` | `firmware.dfy` | `buildings/arduino/src/main.cpp` |
| `BallDetection` | `ball_detect.dfy` | `buildings/arduino/src/BallDetect.cpp` |
| `LegacyBuilding` | `legacy_building.dfy` | `controller_modules/controller/building.py` |
| `LegacyMatch` | `legacy_match.dfy` | `controller_modules/controller/match.py` |

Where the code and the written design disagree, the model follows the code:

- The phase durations are 10, 10 and 90 seconds. The match timer runs for
  110 seconds.
- The match has no operator toggles, no safe zone and no heater timer.
  The controller refers to them, but the match never defines them.

## Model

| member | source | states |
|---|---|---|
| Common.Sub32 | buildings/arduino/src/main.cpp:86 | `now - last` on `uint32_t` is the difference reduced modulo 2^32: the plain difference when `now >= last`, plus 2^32 after a clock wrap |
| Common.AcceptsAfterWindow | buildings/arduino/src/main.cpp:84-92 | an edge `elapsed` ms after the last accepted one is taken exactly when `elapsed > window`, across a wrap of the 32-bit clock too |
| Buildings.FireStateName | controller_modules/controller/src/buildings.py:20-33 | the three states report three distinct names, `idle_state`, `on_fire_state` and `extinguished_state`, each exactly for its state |
| Buildings.FireTransition | controller_modules/controller/src/buildings.py:39-45 | the table has exactly these edges: ignition from idle or extinguished, reset from on-fire or extinguished, and the internal extinguish edge from on-fire |
| Buildings.FireDispatch | controller_modules/controller/src/buildings.py:49-59 | every dispatch of an outside event keeps the building invariant: score ≥ 0, idle means level and score 0, level within [0, initial], and positive exactly while burning |
| Buildings.AfterIgnite | controller_modules/controller/src/buildings.py:94-95 | a building that is not burning goes on fire at its initial level and keeps its score; a burning one is unchanged |
| Buildings.AfterDouse | controller_modules/controller/src/buildings.py:79-85 | a burning building with level ≥ 1 loses one level and gains one point; it is extinguished iff the level reached 0, and then one re-ignition is armed iff auto-ignite is on; any other building is unchanged |
| Buildings.AfterReset | controller_modules/controller/src/buildings.py:97-98 | a burning or extinguished building becomes idle with level and score 0; an idle one is unchanged |
| Buildings.AfterReignite | controller_modules/controller/src/buildings.py:69-77 | an armed re-ignition timer firing leaves the building on fire, at its initial level if it was not burning, with its score kept and one fewer pending |
| Buildings.DousesFromBurning | controller_modules/controller/src/buildings.py:79-85 | `n ≤ level` douses of a burning building give level − n and score + n; it is still burning until the n-th douse takes the last unit, and exactly one re-ignition is then armed with auto-ignite |
| Buildings.IgniteThenDouse | controller_modules/controller/src/buildings.py:65-66 | ignite, then `n ≤ initial` douses: level initial − n and score old + n, so ignition does not clear the score; extinguished exactly when n = initial |
| Buildings.DousesWhileOut | controller_modules/controller/src/buildings.py:24-33 | any number of douses leaves a building that is not burning unchanged, because only the on-fire state has a douse handler |
| Buildings.PendingIgnitionSurvivesReset | controller_modules/controller/src/buildings.py:74-77 | a reset does not disarm a pending re-ignition: a building reset to idle still catches fire at its initial level when the timer fires |
| Buildings.FireBuildingModel.constructor | controller_modules/controller/src/buildings.py:7-13 | a new building is idle with level 0, score 0, auto-ignite off, and keeps the invariant |
| Buildings.FireBuildingModel.EnterState | controller_modules/controller/src/buildings.py:61-77 | the enter handlers: idle clears score and level, on-fire restores the initial level, extinguished arms a re-ignition when auto-ignite is on |
| Buildings.FireBuildingModel.TransitOn | controller_modules/controller/src/buildings.py:39-45 | a table lookup, then the target's enter handler |
| Buildings.FireBuildingModel.FireDousedAction | controller_modules/controller/src/buildings.py:79-85 | the douse handler, as `DousedAction` |
| Buildings.FireBuildingModel.Dispatch | controller_modules/controller/src/buildings.py:49-59 | the handler, then the table; keeps the invariant for every outside event |
| Buildings.FireBuildingModel.DouseFire | controller_modules/controller/src/buildings.py:89-92 | the new fields are `AfterDouse` of the old ones, and the invariant is kept |
| Buildings.FireBuildingModel.Ignite | controller_modules/controller/src/buildings.py:94-95 | the new fields are `AfterIgnite` of the old ones, and the invariant is kept |
| Buildings.FireBuildingModel.Reset | controller_modules/controller/src/buildings.py:97-98 | the new fields are `AfterReset` of the old ones, and the invariant is kept |
| Buildings.FireBuildingModel.ReignitionFires | controller_modules/controller/src/buildings.py:69-72 | the sleeper's ignition dispatch, as `AfterReignite`; keeps the invariant |
| Buildings.FireBuildingModel.GetFireLevel | controller_modules/controller/src/buildings.py:100-101 | returns the level, which lies in [0, initial] and is positive only while burning |
| Buildings.HeaterStateName | controller_modules/controller/src/buildings.py:110-111 | the name is `on_fire_state` exactly for the burning heater and `idle_state` exactly for the idle one |
| Buildings.HeaterDispatch | controller_modules/controller/src/buildings.py:116-117 | the heater ends burning iff it was idle and got an ignition, or it was burning and got anything but a reset |
| Buildings.HeaterBuildingModel.constructor | controller_modules/controller/src/buildings.py:104-114 | a new heater is idle |
| Buildings.HeaterBuildingModel.Dispatch | controller_modules/controller/src/buildings.py:116-117 | the new state is `HeaterDispatch` of the old state |
| Match.PhaseName | controller_modules/controller/src/match.py:72-93 | every phase reports a pysm state name ending in `_state` |
| Match.PhaseNamesDistinct | controller_modules/controller/src/match.py:72-93 | different phases report different state names |
| Match.TimerTick | controller_modules/controller/src/match.py:28-37 | while enabled, a tick counts down by one and never below zero, and an enabled timer already at zero stays there; it fires iff the timer has a callback and reaches 0, and then disables itself; a disabled timer does nothing |
| Match.DisabledTimerIsIdle | controller_modules/controller/src/match.py:28-37 | a disabled timer stays as it is and fires nothing, for any number of ticks |
| Match.ArmedTimerFiresOnce | controller_modules/controller/src/match.py:28-37 | a timer armed for d seconds with a callback fires nothing for d − 1 ticks, fires its callback exactly once on tick d, then stays disabled at 0 |
| Match.Arm | controller_modules/controller/src/match.py:156-158 | callback, `set_timeout` and `start` leave the timer enabled with the new duration and callback, whatever it held before |
| Match.Timer.constructor | controller_modules/controller/src/match.py:10-13 | a new timer is disabled at 0 with no callback |
| Match.Timer.Start | controller_modules/controller/src/match.py:17-18 | only `enabled` becomes true |
| Match.Timer.Pause | controller_modules/controller/src/match.py:19-20 | only `enabled` becomes false |
| Match.Timer.Reset | controller_modules/controller/src/match.py:21-23 | the timer is disabled at 0, with the callback kept |
| Match.Timer.SetTimeout | controller_modules/controller/src/match.py:24-26 | the timer is disabled with the new duration loaded |
| Match.Timer.Tick | controller_modules/controller/src/match.py:28-37 | one loop iteration, as `TimerTick`, returning the fired event |
| Match.PhaseTransition | controller_modules/controller/src/match.py:102-114 | the transition exists iff (phase, event) is one of the ten listed edges, and leads to that edge's target |
| Match.EnterIdle | controller_modules/controller/src/match.py:148-152 | the hotspot becomes `""`; every fire building becomes idle with auto-ignite off, and unlit and scoreless when it kept the building invariant; nothing else changes |
| Match.EnterPhase1 | controller_modules/controller/src/match.py:153-162 | the phase timer is armed for 10 s with the phase-1 timeout; the match timer is armed for 110 s with no callback; nothing else changes |
| Match.EnterPhase2 | controller_modules/controller/src/match.py:164-168 | only the phase timer changes: armed for 10 s with the phase-2 timeout |
| Match.EnterPhase3 | controller_modules/controller/src/match.py:170-177 | the phase timer is armed for 90 s; every fire building is on fire with auto-ignite on and keeps its score, initial level and pending re-ignitions; one that was not burning is at its initial level, one already burning keeps its level |
| Match.ExitPhase | controller_modules/controller/src/match.py:179-180 | leaving phase 3 resets the match timer; no other phase has an exit handler |
| Match.RandomizeHotspot | controller_modules/controller/src/match.py:202-204 | fails exactly when there are no heaters; otherwise only the hotspot changes, to one of the heater names |
| Match.MatchDispatch | controller_modules/controller/src/match.py:118-130 | fails exactly for a hotspot draw in staging with no heaters; otherwise the phase becomes the table's target, or stays without an edge, and the building set is kept |
| Match.PhaseOneTimesOut | controller_modules/controller/src/match.py:185-186 | in phase 1 with the phase timer armed for n seconds, n ticks reach phase 2 with the phase timer re-armed for phase 2 |
| Match.StartThenWait | controller_modules/controller/src/match.py:103-104 | from staging, a match start followed by 10 ticks reaches phase 2 with no other input |
| Match.ResetMatchClearsField | controller_modules/controller/src/match.py:113-114 | a reset from staging or post-match gives idle, with the hotspot cleared and every fire building idle, unlit, scoreless and without auto-ignite |
| Match.TotalScore | controller_modules/controller/src/match.py:195-200 | the sum of the scores is never negative when no score is negative |
| Match.Dedup | controller_modules/controller/src/match.py:44-50 | the dictionary keys are exactly the given names, with each name once, ordered by each name's first occurrence |
| Match.NewFireBuildings | controller_modules/controller/src/match.py:44-46 | one new, distinct, idle building per name, at level 16 |
| Match.NewHeaterBuildings | controller_modules/controller/src/match.py:48-50 | one new idle heater per name |
| Match.MatchModel.constructor | controller_modules/controller/src/match.py:41-116 | an idle match with no hotspot, two idle timers, one idle building per distinct fire name and one heater per distinct heater name |
| Match.MatchModel.IdleEnter | controller_modules/controller/src/match.py:148-152 | the loop over the buildings computes `EnterIdle` |
| Match.MatchModel.PhaseOneEnter | controller_modules/controller/src/match.py:153-162 | computes `EnterPhase1` |
| Match.MatchModel.PhaseTwoEnter | controller_modules/controller/src/match.py:164-168 | computes `EnterPhase2` |
| Match.MatchModel.PhaseThreeEnter | controller_modules/controller/src/match.py:170-177 | the loop over the buildings computes `EnterPhase3` |
| Match.MatchModel.PhaseThreeExit | controller_modules/controller/src/match.py:179-180 | resets the match timer |
| Match.MatchModel.EnterHandler | controller_modules/controller/src/match.py:72-93 | the enter handler of the given phase |
| Match.MatchModel.ExitHandler | controller_modules/controller/src/match.py:88-92 | the exit handler of the given phase |
| Match.MatchModel.RandomizeHotspotAction | controller_modules/controller/src/match.py:182-183 | the staging handler, as `RandomizeHotspot` for the drawn index |
| Match.MatchModel.HandleEvent | controller_modules/controller/src/match.py:124 | the first half of a dispatch: the current phase's handler, as `Handle` of the old state, failing only where the hotspot draw fails |
| Match.MatchModel.TakeTransition | controller_modules/controller/src/match.py:124 | the second half: the old phase's exit handler, the new phase, then its enter handler, with the match invariant kept |
| Match.MatchModel.Dispatch | controller_modules/controller/src/match.py:118-130 | the new state is `MatchDispatch` of the old one, and the match invariant is kept |
| Match.MatchModel.PhaseTimerTick | controller_modules/controller/src/match.py:28-37 | one tick of the phase timer, dispatching what fires |
| Match.MatchModel.CalculateScore | controller_modules/controller/src/match.py:195-200 | returns `TotalScore` of the buildings' scores, which is never negative |
| Controller.SplitPiecesFree | controller_modules/controller/src/controller.py:29 | no piece of `str.split(sep)` contains `sep` |
| Controller.SplitCount | controller_modules/controller/src/controller.py:29 | the split has one more piece than the string has separators |
| Controller.JoinSplit | controller_modules/controller/src/controller.py:29 | joining the pieces with the separator gives back the string |
| Controller.SplitPiece | controller_modules/controller/src/controller.py:29 | a string without the separator splits into itself alone |
| Controller.SplitAfterPiece | controller_modules/controller/src/controller.py:29 | a separator-free piece, a separator, then a rest splits into that piece followed by the split of the rest |
| Controller.SplitJoin | controller_modules/controller/src/controller.py:29 | splitting separator-free pieces joined by the separator gives back the pieces |
| Controller.Route | controller_modules/controller/src/controller.py:28-48 | a topic with fewer than three levels raises; a building douse happens iff the first level is a known building id, the third is a detector and the event type is `hit`; operator events are toggles iff their type is `ui_toggle`, and are dispatched otherwise |
| Controller.DetectorHitDouses | controller_modules/controller/src/controller.py:33-39 | a hit on topic `id/x/detector[/…]` douses exactly building `id` when `id` is known, and douses nothing otherwise |
| Controller.LedBar | controller_modules/controller/src/controller.py:136-166 | 30 pixels, each off or blue: blue exactly on the first run and the last run; undefined (an index error) exactly when a run is too long for the strip |
| Controller.GenerateLedDict | controller_modules/controller/src/controller.py:136-166 | the three loops, with Python's negative-index wrap, compute `LedBar` |
| Controller.BlueCountPrefix | controller_modules/controller/src/controller.py:158-164 | counts the blue pixels in a prefix of a two-run bar |
| Controller.BarShowsLevel | controller_modules/controller/src/controller.py:145-164 | for a level in [0, init] whose bar fits, exactly level × pixels-per-level pixels are blue |
| Controller.SecondRunAboveHalf | controller_modules/controller/src/controller.py:147-155 | the second run exists only above half the initial level, and level 0 gives a dark strip |
| Controller.WindowRelays | controller_modules/controller/src/controller.py:174-195 | window 2 is on iff level > initial/2 (true division); window 1 is on iff that holds or the level is positive; window 2 implies window 1 |
| Controller.WindowsMatchBar | controller_modules/controller/src/controller.py:174-195 | window 1 is on iff an end pixel of the bar is lit; window 2 is on iff the second run is present |
| Controller.HopperRelay | controller_modules/controller/src/controller.py:197-203 | the hopper is on exactly in phase 3 |
| Controller.HeaterRelay | controller_modules/controller/src/controller.py:205-213 | the heater relay is on exactly while the heater burns |
| Controller.MatchStateLabel | controller_modules/controller/src/controller.py:86-101 | the six state names get their labels; any other name is shown unchanged |
| Controller.BuildingStateLabel | controller_modules/controller/src/controller.py:60-69 | the three state names get their labels; any other name is shown unchanged |
| Controller.MatchLabelsDistinguishPhases | controller_modules/controller/src/controller.py:88-100 | every phase has a label, and different phases get different labels |
| Controller.BuildingLabelsDistinguishStates | controller_modules/controller/src/controller.py:62-67 | every building state has a label, and different states get different labels |
| Firmware.DigitRun | buildings/arduino/src/main.cpp:66-73 | the inner loop stops at the first non-digit or at the end |
| Firmware.Scan | buildings/arduino/src/main.cpp:46-76 | the LED index only grows and never passes 30, and no more than the input is left unread |
| Firmware.ScanWritesInArray | buildings/arduino/src/main.cpp:74 | every cell the walk writes lies inside the 30 × 3 array |
| Firmware.ScanAtSlash | buildings/arduino/src/main.cpp:49-57 | a `/` moves to the next LED's first component, or stops the walk with the rest unread when that LED is the 30th |
| Firmware.ScanAtComma | buildings/arduino/src/main.cpp:58-65 | a `,` moves to the next component, or stops the walk with the rest unread at a fourth |
| Firmware.ScanAtDigit | buildings/arduino/src/main.cpp:66-74 | a digit run is stored as its decimal value in the current cell and the walk continues just past it |
| Firmware.ScanAtOther | buildings/arduino/src/main.cpp:46-76 | any other character is skipped without a write |
| Firmware.ParseLed | buildings/arduino/src/main.cpp:41-79 | `numLeds` lies in [1, 31], every written cell is inside the array, and an empty string gives 1 and no writes |
| Firmware.NoDigitsNoWrites | buildings/arduino/src/main.cpp:46-76 | input without digits writes no cell |
| Firmware.ScanCountsSeparators | buildings/arduino/src/main.cpp:49-57 | the LED index grows by at most the number of `/`; when the whole input is read it grows by exactly that number and stays below 30 |
| Firmware.SlashCountHead | buildings/arduino/src/main.cpp:49-51 | the first character adds one `/` to the count of the rest exactly when it is a `/` |
| Firmware.NoSlashInRun | buildings/arduino/src/main.cpp:66-73 | skipping a digit run skips no `/` |
| Firmware.ScanStopsAtCap | buildings/arduino/src/main.cpp:53-56 | a scan that stops on a `/` has reached LED 30 |
| Firmware.LedCountFollowsSeparators | buildings/arduino/src/main.cpp:78 | `numLeds` is at most the number of `/` plus one; it is exactly that when the input is read to the end, and 31 when the scan stops at the 30th `/` |
| Firmware.StopIgnoresRest | buildings/arduino/src/main.cpp:53-64 | after an early stop, appended text changes neither the count nor the cells |
| Firmware.DigitRunExtends | buildings/arduino/src/main.cpp:69-73 | a digit run that ends inside the string is not extended by text appended after it |
| Firmware.ReadNumber | buildings/arduino/src/main.cpp:66-73 | the inner loop reads the whole digit run and returns its decimal value |
| Firmware.DigitRunUnique | buildings/arduino/src/main.cpp:69-73 | a maximal digit prefix has the length `DigitRun` gives |
| Firmware.ParseLedString | buildings/arduino/src/main.cpp:41-79 | the loop returns `numLeds` of `ParseLed`; the written cells get the parsed values and every other cell keeps its old value |
| Firmware.Decimal | buildings/arduino/src/main.cpp:115 | the sample's decimal components are non-empty digit runs |
| Firmware.DecimalRoundTrip | buildings/arduino/src/main.cpp:66-73 | parsing a component's decimal text gives the component back |
| Firmware.PutContents | buildings/arduino/src/main.cpp:74 | writing a strip's pixels from LED `led` sets exactly those rows' three cells and keeps all others |
| Firmware.ScanNumber | buildings/arduino/src/main.cpp:66-74 | a decimal run followed by a non-digit stores its value in the current cell and continues after it |
| Firmware.ScanComma | buildings/arduino/src/main.cpp:58-60 | a `,` before the third component moves to the next component |
| Firmware.ScanSlash | buildings/arduino/src/main.cpp:49-56 | a `/` moves to the next LED's first component, or stops at the 30th |
| Firmware.ScanGroup | buildings/arduino/src/main.cpp:48-74 | a group `r,g,b/` writes the three components of the current LED and moves to the next |
| Firmware.StripHead | buildings/arduino/src/main.cpp:46-76 | the first pixel of an encoded strip lands on the current LED and the walk goes on with the rest of the strip from the next LED, matching `Put`'s first step |
| Firmware.ScanStrip | buildings/arduino/src/main.cpp:41-79 | a strip of up to 30 pixels in the sample format ends on LED `led + n` with exactly those pixels written |
| Firmware.TerminatedStripOvercounts | buildings/arduino/src/main.cpp:78 | as written: an n-pixel message in the sample format writes every pixel but reports n + 1 LEDs, so 31 for the 30-pixel sample |
| Firmware.CountedLeds | buildings/arduino/src/main.cpp:124-126 | corrected: the count never exceeds 30 or the parser's count |
| Firmware.CountedStripRoundTrip | buildings/arduino/src/main.cpp:115-128 | corrected: an n-pixel message shows exactly n pixels, each with its components |
| Firmware.PutRows | buildings/arduino/src/main.cpp:74 | a strip written from LED 0 fills rows below n and leaves row n empty |
| Firmware.BallIsr.constructor | buildings/arduino/src/main.cpp:35 | the debounce reference starts at 0 |
| Firmware.BallIsr.BallDetectIsr | buildings/arduino/src/main.cpp:84-92 | "ball" is sent iff more than 50 ms (mod 2^32) passed since the last sent edge, which then becomes the reference; otherwise nothing changes |
| BallDetection.Trigger | buildings/arduino/src/BallDetect.cpp:17-31 | an edge accepted after `MAX_WAIT` latches a ball, sets the sensor state and moves the reference; a rejected edge changes nothing |
| BallDetection.Detect | buildings/arduino/src/BallDetect.cpp:34-47 | reports the latch and leaves it clear |
| BallDetection.PinIsLastInit | buildings/arduino/src/BallDetect.cpp:7-15 | `get_pin` returns the pin of the latest `ball_init`, whatever happened since |
| BallDetection.NoBallWithoutAcceptedTrigger | buildings/arduino/src/BallDetect.cpp:17-47 | with the latch clear and every trigger rejected, no detection reports a ball and the reference time stays |
| BallDetection.SecondDetectIsFalse | buildings/arduino/src/BallDetect.cpp:34-47 | each ball is consumed once: the second of two detections with no accepted trigger between them reports nothing |
| BallDetection.ReportsLastDetect | buildings/arduino/src/BallDetect.cpp:34-47 | the final detection of a run reports exactly the latch as the calls before it left it |
| BallDetection.BallDetector.constructor | buildings/arduino/src/BallDetect.cpp:3-5 | the constructor sets no field; the initial values are given |
| BallDetection.BallDetector.BallInit | buildings/arduino/src/BallDetect.cpp:7-11 | only the pin changes |
| BallDetection.BallDetector.GetPin | buildings/arduino/src/BallDetect.cpp:13-15 | returns the pin |
| BallDetection.BallDetector.BallTriggerInterrupt | buildings/arduino/src/BallDetect.cpp:17-31 | the new fields are `Trigger` of the old ones |
| BallDetection.BallDetector.BallDetect | buildings/arduino/src/BallDetect.cpp:34-47 | returns the latch and clears it, as `Detect` |
| LegacyBuilding.LegacyTransition | controller_modules/controller/building.py:26-32 | ignition from idle or extinguished, reset from on-fire or extinguished, and a douse from on-fire to extinguished exactly when the level is ≤ 0 |
| LegacyBuilding.NewLegacy | controller_modules/controller/building.py:4-8 | a new building is idle at its initial level |
| LegacyBuilding.LegacyIgnite | controller_modules/controller/building.py:61-62 | a building that is not burning goes on fire at its initial level; a burning one is unchanged |
| LegacyBuilding.LegacyDouse | controller_modules/controller/building.py:39-47 | a burning building loses one level with no lower bound and keeps no score; it is extinguished iff the new level is ≤ 0; any other building is unchanged |
| LegacyBuilding.LegacyReset | controller_modules/controller/building.py:64-65 | a burning or extinguished building becomes idle and keeps its level; an idle one is unchanged |
| LegacyBuilding.LegacyInvariant | controller_modules/controller/building.py:26-47 | for a positive initial level, every dispatch keeps the level ≤ initial, ≥ 1 while burning and 0 once extinguished |
| LegacyBuilding.IgniteThenLegacyDouses | controller_modules/controller/building.py:36-47 | ignite, then n douses: burning at initial − n while n < initial, then extinguished at 0 for every later douse |
| LegacyBuilding.LegacyDousesLast | controller_modules/controller/building.py:50-56 | n + 1 douses are n douses followed by one more |
| LegacyBuilding.DemonstrationEndsExtinguished | controller_modules/controller/building.py:69-77 | the module's demonstration (ignite, then 16 douses) ends extinguished at level 0 |
| LegacyBuilding.Building.constructor | controller_modules/controller/building.py:4-8 | a new building is idle at its initial level, with douse amount 1 |
| LegacyBuilding.Building.OnFireEnter | controller_modules/controller/building.py:36-37 | restores the initial level |
| LegacyBuilding.Building.FireDousedAction | controller_modules/controller/building.py:39-41 | a burning building's level drops by one; nothing else changes |
| LegacyBuilding.Building.Dispatch | controller_modules/controller/building.py:26-47 | handler, guarded table and enter handler, as `LegacyDispatch` |
| LegacyBuilding.Building.DouseFire | controller_modules/controller/building.py:50-56 | the new fields are `LegacyDouse` of the old ones |
| LegacyBuilding.Building.Ignite | controller_modules/controller/building.py:61-62 | the new fields are `LegacyIgnite` of the old ones |
| LegacyBuilding.Building.Reset | controller_modules/controller/building.py:64-65 | the new fields are `LegacyReset` of the old ones |
| LegacyMatch.LegacyTransition | controller_modules/controller/match.py:46-51 | the transition exists iff (phase, event) is one of the six edges, and leads to that edge's target |
| LegacyMatch.EdgesFormOneCycle | controller_modules/controller/match.py:46-51 | every edge goes one step forward around the cycle, and only the post-match reset returns to idle: no early exit and no staging → idle |
| LegacyMatch.TimeoutOf | controller_modules/controller/match.py:64-75 | exactly the three phases schedule a timeout, and each timeout is an edge out of its own phase |
| LegacyMatch.LegacyEnter | controller_modules/controller/match.py:64-75 | entering a phase appends its timeout to the pending sleepers; other phases change nothing |
| LegacyMatch.LegacyMatchDispatch | controller_modules/controller/match.py:55-58 | the phase becomes the table's target, or stays without an edge; an ignored event changes nothing; a transition schedules exactly the new phase's timeout |
| LegacyMatch.NewLegacyMatch | controller_modules/controller/match.py:39 | a new match is idle with nothing scheduled and score 0 |
| LegacyMatch.StepsKeepSynced | controller_modules/controller/match.py:46-75 | a new match is synced, and outside events keep it synced: a timed phase has exactly its own timeout pending, any other phase has none |
| LegacyMatch.SleepersFinishMatch | controller_modules/controller/match.py:60-75 | from a synced timed phase, the sleepers alone reach post-match, with each firing once and nothing left pending |
| LegacyMatch.WholeLegacyMatch | controller_modules/controller/match.py:82-85 | a new match, then new-match and match-start events, is in phase 1 with one sleeper; three sleepers later it is post-match with none; a reset returns it to a new match |
| LegacyMatch.LegacyMatchModel.constructor | controller_modules/controller/match.py:6-53 | a new match object is `NewLegacyMatch` |
| LegacyMatch.LegacyMatchModel.PhaseOneEnter | controller_modules/controller/match.py:64-67 | schedules the phase-1 timeout |
| LegacyMatch.LegacyMatchModel.PhaseTwoEnter | controller_modules/controller/match.py:68-71 | schedules the phase-2 timeout |
| LegacyMatch.LegacyMatchModel.PhaseThreeEnter | controller_modules/controller/match.py:72-75 | schedules the phase-3 timeout |
| LegacyMatch.LegacyMatchModel.EnterHandler | controller_modules/controller/match.py:26-36 | the enter handler of the current phase, as `LegacyEnter` |
| LegacyMatch.LegacyMatchModel.Dispatch | controller_modules/controller/match.py:55-58 | the new fields are `LegacyMatchDispatch` of the old ones |
| LegacyMatch.LegacyMatchModel.TimerFires | controller_modules/controller/match.py:60-62 | the oldest sleeper wakes and its event is dispatched, as `LegacyTimerFires` |

## Left out

- Threads, locks and sleeps are not modelled, so neither is any
  interleaving between them. This covers the timer threads, the per-call
  dispatch locks, the re-ignition and phase sleepers, and the MQTT loop.
  Each becomes an explicit sequential step.
- The busy `while True: pass` in the earlier `phase_three_enter`
  (controller_modules/controller/match.py:77-78) never returns. The model
  returns from it.
- If the hotspot draw raises, the dispatch lock stays held. The model
  reports failure and leaves the state unchanged.
- MQTT publishing, the InfluxDB adapter, logging, `print`, the serial link,
  and `time.strftime` for timer display are I/O. They are not modelled.
- The `Controller` publishing methods are not modelled as such. Their pure
  parts are: routing, the LED bar, the relays and the labels.
- `mapRange` (controller.py:7-8) is floating-point and is not modelled.
- FastLED and the pixel drawing of `LEDdisplay` are hardware. The pixel
  count it loops over is in "## Findings".
- `LEDdisplay` also reads array cells that `parseLEDString` never wrote,
  which hold indeterminate values in C++. The model only tracks written
  cells.
- The controller refers to `douse_fire`, `handle_ui_toggles`, `ui_toggles`,
  `safezone`, `heater_timer` and `get_score`, which the match and buildings
  do not define. It also passes three lists to a two-list match
  constructor. These calls are not part of this model. `Route` returns the
  action that would be taken.
- `MatchModel.timer` (src/match.py:132-135) is never called and is not
  modelled.
- The earlier match builds a dictionary of `Building`s in a local variable
  and then discards it (controller_modules/controller/match.py:11-18). It
  is not modelled.
- `Route`: an `event_type` that is not a string is not modelled. Events are
  strings.
- The message topic format of the adapters (buildings/pi/...) is not part
  of this model.
- `Firmware.ParseLedString`: values are unbounded integers. The 16-bit
  `int` overflow of a long digit run on the AVR is not modelled.
- `Firmware.BallIsr.BallDetectIsr` reads the clock once per call. The
  source reads `millis()` twice, so the stored reference may be a
  millisecond later.
- `BallDetection.DetectorView`: the type of `lastTrigger` is declared in
  BallDetect.hpp, which is not part of this model. The model takes it to
  be a 32-bit unsigned value that wraps around, like `millis()`.
- `BallDetection.BallDetector.constructor`: the header's `MAX_WAIT` value
  and the fields' initial values are not part of this model. They are
  parameters.
- `Match.EnterIdle` guarantees level and score 0 only for buildings that
  keep the building invariant. A building whose invariant fails on entry is
  outside the model's promise.
- `Buildings.FireDispatch` states invariant preservation for every event
  except the internal extinguish event. That event is only sent from inside
  the douse handler, where the invariant holds again afterwards.
- `LegacyBuilding.Building.Dispatch` requires the douse amount to be 1,
  which the constructor always sets.
- The dead `else` branch of `generate_LED_dict` (controller.py:153-155) is
  unreachable, and the model has no counterpart for it.

## Findings

| source | as written | input that shows it | evidently intended | confidence | as-written member | corrected member |
|---|---|---|---|---|---|---|
| buildings/arduino/src/main.cpp:78 | `numLeds = ledIndex + 1` also counts the empty group after a trailing `/` | the 30-pixel sample string at main.cpp:115 (30 groups, each ending in `/`): the count is 31 and `LEDdisplay` reads `ledArray[30]`, one row past the array (main.cpp:124-126). The adapter's own `fullstrip` (buildings/pi/arduino-adapter/main.py:38) has no trailing `/` and parses to 30, so the overcount needs the trailing-slash format of the main.cpp:115 sample | count only LEDs whose group wrote a value, so an n-pixel message shows n pixels, never more than 30 | not executed | Firmware.TerminatedStripOvercounts | Firmware.CountedLeds |
