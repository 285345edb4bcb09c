# Electrical bulletin board: verified model of the command handler and its state machines

The signage program shows scrolling or static text bulletins, runs a bingo
draw and runs a countdown. Remote clients send commands over a WebSocket;
once per display frame the engine drains the queued commands in arrival
order, updates its state and broadcasts one response per command that
succeeds. This project models that per-frame command handler and the state
machines it and its neighbouring systems drive, and proves their properties.

- `wrappers.dfy` (`Wrappers`): the `Option` type.
- `text.dfy` (`Text`): `count_ascii` as a left fold, `calc_text_offset`,
  `calc_speed`, and the classification of a text item by its duration
  (0 is static, 1000 or more loops, anything else scrolls once).
- `bingo.dfy` (`BingoDraw`): `BingoState` as a class holding a shuffle of the
  balls 1..75 and a cursor. `new` takes the shuffle as an argument and
  requires it to be a rearrangement of 1..75.
- `countdown.dfy` (`Countdown`): the `CountdownTimer` class (`new`, `start`,
  `stop`, `remaining_seconds`, `get_accelerated_number`, the per-frame
  `countdown_system`, `countdown_finished_system`), the dwell tables, and the
  per-entity fade phase machine of `fade_system` as the `FadeComponent`
  class. Time is exact `real` seconds. The engine timer runs in one-shot mode.
  It is kept as its elapsed time, clamped to its duration.
- `countdown_props.dfy` (`CountdownProperties`): lemmas about the dwell tables
  and the displayed number.
- `server.dfy` (`Server`): the command and response types and the
  specification of one command (`ApplyCommand`) and of a whole queue
  (`Run`), over a `Snapshot` of the handler's state. `CommandHandler` is the
  in-place implementation, and its methods are proved against that
  specification.
- `server_props.dfy` (`ServerProperties`): lemmas about the specification.
  They cover bulletin switching and neighbours, bingo responses, the
  commands that change nothing, FIFO composition and a full 75-ball session.

Behaviour of the code that the model keeps:
- A Bulletin naming a different, existing preset switches the text queue and
  resets the index to 0, even when its index then turns out to be out of
  range.
- The previous text of item 0 is item 0 itself (`saturating_sub`).
- Countdown Start only answers `"started"`. It does not start the timer.
- A full command channel makes the connection's reader wait
  (`send(...).await` at server.rs:176). It does not drop the command.
- `stop` leaves the engine timer's elapsed time as it is. Only `start` resets it.

## Model

| member | source | states |
|---|---|---|
| `Text.FoldTally` | src/text.rs:2-9 | the fold adds exactly one to one of the two counters per character and never decreases either |
| `Text.CountAscii` | src/text.rs:1-10 | the two counts add up to the number of characters |
| `Text.FoldTallyShift` | src/text.rs:2-9 | folding from an accumulator equals the accumulator plus the counts of the string |
| `Text.CountAsciiEmpty` | src/text.rs:2 | the empty string counts (0, 0) |
| `Text.CountAsciiAppend` | src/text.rs:1-10 | the counts of a concatenation are the component-wise sums of the counts |
| `Text.CountAsciiSnoc` | src/text.rs:2-9 | appending one character adds it to exactly the counter of its kind |
| `Text.CountAsciiMatchesPositions` | src/text.rs:3-7 | the first count is the number of positions holding a code point below 128, the second the number of the others |
| `Text.TextOffset` | src/text.rs:12-16 | for a non-negative text size the offset is at least half the window width plus 5 |
| `Text.OffsetMonotone` | src/text.rs:15 | for a non-negative text size the offset is non-decreasing in both counts |
| `Text.TextOffsetAppend` | src/text.rs:12-16 | appending text never decreases the offset |
| `Text.Speed` | src/text.rs:18-20 | for a non-zero duration, speed times duration is the text width plus the window width |
| `Text.Classify` | src/server.rs:243-253 | duration 0 is static, a non-zero duration of 1000 or more loops, any other duration scrolls once |
| `BingoDraw.Balls` | src/bingo.rs:13 | the unshuffled balls are exactly the values 1..75, in strictly increasing order |
| `BingoDraw.ShuffleLength` | src/bingo.rs:13-14 | a shuffle of the balls has 75 elements |
| `BingoDraw.ShuffleInRange` | src/bingo.rs:13-14 | every element of a shuffle lies in 1..75, so a draw is never confused with exhaustion |
| `BingoDraw.ShuffleDistinct` | src/bingo.rs:13-14 | a shuffle has no repeated ball |
| `BingoDraw.ShuffleCovers` | src/bingo.rs:13-14 | every ball 1..75 occurs in a shuffle |
| `BingoDraw.DrawsAreDistinctAndExhaustive` | src/bingo.rs:22-26 | the first k draws are pairwise distinct balls, and the first 75 draws are every ball exactly once |
| `BingoDraw.BingoState.constructor` | src/bingo.rs:11-20 | the new state holds the given shuffle with the cursor at 0 and nothing drawn |
| `BingoDraw.BingoState.Current` | src/bingo.rs:32-39 | None exactly when exhausted, otherwise the ball under the cursor, which is in 1..75 and not yet drawn |
| `BingoDraw.Peek` | src/bingo.rs:23-38 | a ball exactly when the cursor is within the shuffle, and then the ball under the cursor |
| `BingoDraw.BingoState.Next` | src/bingo.rs:22-30 | returns what Current returned before. While balls remain it returns the next ball, advances the cursor by one and appends that ball, new and in 1..75, to the draws. When exhausted it returns None and changes nothing. The shuffle never changes and the invariant is kept |
| `Countdown.Ceil` | src/countdown.rs:89 | the result is the least integer not below its argument |
| `Countdown.DwellTimes` | src/countdown.rs:121-126 | ten entries, starting at the first time (number 10) and ending at the last (number 1) |
| `Countdown.EvenSteps` | src/countdown.rs:121-126 | the entries are evenly spaced: any two differ by the same fraction of the total change as their positions do |
| `Countdown.Passed` | src/countdown.rs:102-110 | the running-total scan stops at a position between its start and the table length |
| `Countdown.NormalNumber` | src/countdown.rs:88-92 | never negative; while time remains, the ceiling of the remaining seconds; once none remains, exactly 0 |
| `Countdown.SteppedNumber` | src/countdown.rs:102-110 | the stepped number lies in 0..10 |
| `Countdown.CalculateAcceleratedTimes` | src/countdown.rs:114-129 | the loop builds exactly the table interpolated from 1.8 s to 1.3 s |
| `Countdown.CalculateDeceleratedTimes` | src/countdown.rs:132-147 | the loop builds exactly the table interpolated from 1.3 s to 1.8 s |
| `Countdown.DwellCountdown` | src/countdown.rs:102-110 | the accumulator loop returns 10 minus the number of intervals whose running sum is not above the elapsed time, or 0 after the last one |
| `Countdown.Clamp` | src/countdown.rs:251 | the result lies in [0, 1] and equals its argument when that already does |
| `Countdown.FadeComponent.constructor` | src/countdown.rs:285-291 | a new fade is in FadeIn at time 0 with durations 0.3, 0.4 and 0.3 s |
| `Countdown.FadeComponent.Advance` | src/countdown.rs:218-257 | phases only move forward, at most one step per frame, and Complete is absorbing. The applied alpha lies in [0, 1], equals the unclamped ramp, and the entity is despawned exactly in Complete. The exact new time and phase are given for each phase |
| `Countdown.CountdownTimer.constructor` | src/countdown.rs:47-58 | a new timer is inactive, shows nothing (-1), is not finished and has no elapsed time |
| `Countdown.CountdownTimer.Start` | src/countdown.rs:60-67 | resets the engine timer, activates, clears the shown number, the finished flag and the elapsed time |
| `Countdown.CountdownTimer.Stop` | src/countdown.rs:69-75 | deactivates and clears the shown number, the finished flag and the elapsed time, leaving the engine timer alone |
| `Countdown.CountdownTimer.RemainingSeconds` | src/countdown.rs:77-83 | between 0 and the full length; while active it is the full length minus the timer's elapsed time, otherwise the full length |
| `Countdown.CountdownTimer.GetAcceleratedNumber` | src/countdown.rs:86-111 | the displayed number for the mode, elapsed time and remaining time, in 0..10 in the stepped modes once time has run |
| `Countdown.CountdownTimer.NumberToShow` | src/countdown.rs:168-177 | the number this frame shows is the displayed number for the mode, elapsed time and remaining time; in Normal mode it is 0 exactly when no time remains |
| `Countdown.CountdownTimer.Tick` | src/countdown.rs:154-209 | inactive means no-op. Active means the elapsed time grows by exactly the frame's delta and the timer advances, clamped. The shown number is rewritten and respawned only when it changes. When the finish condition holds (15.5 s in the stepped modes, the timer finished in Normal) the countdown ends inactive with the finished flag set |
| `Countdown.CountdownTimer.Settle` | src/countdown.rs:179-208 | respawns and records the number only when it differs from the one shown, then ends the countdown, inactive with the finished flag set, exactly when the mode's finish condition holds |
| `Countdown.CountdownTimer.ConsumeFinished` | src/countdown.rs:296-311 | clears the finished flag and yields exactly one "finished" response when the flag was set and the channel exists, otherwise nothing. The invariant bounds the notices to one per start |
| `CountdownProperties.AcceleratedStrictlyDecreasing` | src/countdown.rs:114-129 | the Accelerated table goes from 1.8 to 1.3 and is strictly decreasing |
| `CountdownProperties.DeceleratedStrictlyIncreasing` | src/countdown.rs:132-147 | the Decelerated table goes from 1.3 to 1.8 and is strictly increasing |
| `CountdownProperties.DeceleratedIsReversed` | src/countdown.rs:132-147 | the Decelerated table is the Accelerated table reversed |
| `CountdownProperties.TablesPositive` | src/countdown.rs:114-147 | every dwell time in both tables is positive |
| `CountdownProperties.DwellPrefixSum` | src/countdown.rs:121-126 | closed form of the running sums of an interpolated table |
| `CountdownProperties.TablesSumToFinishThreshold` | src/countdown.rs:199 | both tables sum to exactly 15.5 s, the finish threshold |
| `CountdownProperties.PassedStillRunning` | src/countdown.rs:102-110 | when the running total is the sum of the intervals already scanned, the interval the scan stops at is still running at time t |
| `CountdownProperties.PassedPrefixElapsed` | src/countdown.rs:102-110 | the intervals the scan skips over have all run by time t |
| `CountdownProperties.PassedMonotone` | src/countdown.rs:102-110 | the count of elapsed intervals never decreases as time grows |
| `CountdownProperties.PassedCountsRunIntervals` | src/countdown.rs:102-110 | for positive dwell times and t >= 0, a prefix of the table has run by time t if and only if it is no longer than the count |
| `CountdownProperties.SteppedNumberNonIncreasing` | src/countdown.rs:102-110 | the stepped number never increases as time grows |
| `CountdownProperties.SteppedNumberZeroAfterTable` | src/countdown.rs:110 | once the whole table has run the stepped number is 0 |
| `CountdownProperties.FinishedShowsZero` | src/countdown.rs:198-199 | a stepped countdown shows 0 whenever its finish condition holds |
| `CountdownProperties.NormalShowsZeroExactlyWhenFinished` | src/countdown.rs:168-174 | a Normal countdown shows 0 exactly when its engine timer has reached the full length (its finish condition at countdown.rs:201), and a positive number before |
| `CountdownProperties.DisplayedNumberRange` | src/countdown.rs:86-111 | the displayed number is never negative, at most 10 in a stepped mode once time has run, and otherwise 0 exactly when no time remains |
| `CountdownProperties.SteppedNumberStartsAtTen` | src/countdown.rs:103-106 | during the first interval the stepped number is 10 |
| `CountdownProperties.NormalNumberMonotone` | src/countdown.rs:88-92 | in Normal mode the shown number never increases as the remaining time shrinks |
| `Server.SwitchPreset` | src/server.rs:222-231 | only the text queue changes; the named preset is current afterwards exactly when it already was or exists, and a switch loads its items and resets the index to 0 |
| `Server.SpeedAfterSpawn` | src/server.rs:243-253 | static and looping items keep the speed; a one-shot item's new speed times its duration is twice its offset plus the window width |
| `Server.ApplyBulletin` | src/server.rs:220-278 | the bingo draw is untouched and the preset switch always happens; a response exists exactly when the index is valid for the switched queue, and then shows that item with scrolling on and the index set; otherwise the state is the switched one |
| `Server.ApplyBingoNext` | src/server.rs:279-303 | only the draw cursor moves; while balls remain it advances by one and the ball under the old cursor is published with the new count; once exhausted nothing changes and nothing is published |
| `Server.ApplyCommand` | src/server.rs:219-326 | only Bingo moves the draw, only Bulletin touches the text queue and scrolling state, every response has its command's kind, and Countdown and ListPresets always answer |
| `Server.Run` | src/server.rs:218-327 | draining a queue publishes at most one response per command |
| `Server.CommandHandler.constructor` | src/server.rs:90-109 | the handler starts over the start-up resources, whose catalog lists each of its presets exactly once, with nothing queued or published |
| `Server.CommandHandler.Submit` | src/server.rs:174-176 | a forwarded command joins the back of the queue |
| `Server.CommandHandler.ShowBulletin` | src/server.rs:220-278 | the Bulletin arm: the new state and the response are those ApplyBulletin gives, the response, if any, is published, and nothing else changes |
| `Server.CommandHandler.DrawBall` | src/server.rs:279-303 | the Bingo Next arm: draws through the bingo state; the new state and the response are those ApplyBingoNext gives, and the response, if any, is published |
| `Server.CommandHandler.Apply` | src/server.rs:219-326 | the new state and the response are those ApplyCommand gives, and the response, if any, is appended to the published ones; ListPresets publishes exactly the catalog's preset names |
| `Server.CommandHandler.HandleCommands` | src/server.rs:218-328 | the loop ends with the queue empty. The state is Run of the old state over the old queue, in arrival order, and the published responses grow by exactly Run's responses |
| `ServerProperties.BulletinSwitchesToKnownPreset` | src/server.rs:222-227 | a different existing preset replaces the texts, sets the preset name and leaves the index at 0 unless the requested index is valid |
| `ServerProperties.BulletinUnknownPresetKeepsQueue` | src/server.rs:228-239 | an unknown preset keeps texts and preset name, and the index is resolved against the current texts |
| `ServerProperties.BulletinInRange` | src/server.rs:239-274 | a valid index sets the current index and activates scrolling. The response shows the item, the next item or "" after the last, and the previous item, which for index 0 is the item itself |
| `ServerProperties.BulletinOutOfRange` | src/server.rs:275-277 | an out-of-range index publishes nothing and changes no modelled state beyond the preset switch |
| `ServerProperties.BulletinSpeed` | src/server.rs:243-253 | static and looping items keep the scrolling speed; a one-shot item's speed times its duration is twice its offset plus the window width |
| `ServerProperties.BingoNextPublishesDraw` | src/server.rs:287-300 | while balls remain, the next ball is published together with the count drawn so far, both in 1..75. When exhausted nothing is published and no modelled state changes |
| `ServerProperties.CountdownStartChangesNothing` | src/server.rs:304-316 | Countdown Start changes no state and answers "started" |
| `ServerProperties.ListPresetsNamesEveryPreset` | src/server.rs:319-325 | ListPresets changes no state and lists every preset name exactly once |
| `ServerProperties.RunAppend` | src/server.rs:218 | draining a + b is draining a and then b, so responses follow arrival order |
| `ServerProperties.BingoSession` | src/server.rs:279-303 | k Bingo Next commands draw min(k, remaining) balls in order, one response each |
| `ServerProperties.ExhaustedSession` | src/server.rs:287-300 | once every ball is drawn, any number of Bingo Next commands change no modelled state and publish nothing |
| `ServerProperties.ShuffleResponses` | src/server.rs:287-300 | the 75 responses to the draws of a shuffle are numbered 1..75 and announce every ball 1..75 exactly once |
| `ServerProperties.FullBingoSession` | src/server.rs:287-300 | from a fresh shuffle, 75 Next commands publish every ball 1..75 exactly once, numbered 1..75. A 76th publishes nothing more |

## Left out

- WebSocket transport (src/server.rs:111-204): the axum server, the upgrade handler, the reader and writer tasks and their cancellation. This is network I/O and concurrency. The reader's forwarding of a decoded command is the `Submit` method.
- The mpsc and broadcast channels (src/server.rs:91-92): their capacity of 100, waiting when full, lag, and fan-out to subscribers belong to the async runtime. The command queue is the `pending` sequence and the broadcast is the append-only `published` sequence.
- JSON encoding and decoding: the model starts from decoded commands and ends at response values.
- Engine work: spawning and despawning text entities, transforms, colours, the looping-text component and its fixed 500 px/s speed, and the standalone scrolling demo in src/main.rs. The model keeps only the classification by duration, the speed update of a one-shot scroll, and the per-entity fade step. Iterating a frame's fade entities and despawning them later is not modelled.
- Preset and configuration loading (src/loader.rs): files, CSV/TOML parsing and fallback presets are I/O. The catalog and the configuration are inputs. The catalog fixes its key iteration order as a sequence listing every key once, because the map's iteration order is fixed while it is unmodified.
- Randomness: the shuffle is an argument of the `BingoState` constructor, which requires it to rearrange 1..75.
- The initial text queue, scrolling state and speed are set up outside the core. They are constructor arguments, with scrolling off and speed 0.
- f32 arithmetic: all times, sizes and speeds are exact reals. The f32 dwell table need not sum to exactly 15.5.
- Integer widths: `index + 1` on a u32 and the u8 and i32 casts are taken as exact. A texts list shorter than 2^32 items, at most 75 balls and countdown lengths below 2^31 s keep them so.
- Diagnostic output: the console logging of the handler (src/server.rs:227, 229, 276), of the text offset (src/text.rs:14) and of the countdown (src/countdown.rs:194, 207) is not modelled. For an unknown preset or an out-of-range index that log line is the program's only reaction; the model publishes nothing there.
- Display clearing: a Bulletin despawns the text on screen before its index is checked (src/server.rs:233-236), and a Bingo Next despawns it before drawing (src/server.rs:282-285). So an out-of-range Bulletin and a Bingo Next on an exhausted draw still blank the display, though they change no modelled state and publish nothing.
- The order in which the engine schedules the systems within a frame: each system is a separate method.
- The unreachable Normal arm inside `get_accelerated_number` (src/countdown.rs:99): Normal mode has already returned earlier.
