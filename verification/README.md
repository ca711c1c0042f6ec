# ByteWaterlevel firmware: a verified model

ByteWaterlevel is an ESP32 firmware that measures the filling of a tank through a filtered voltage,
drives two relays (fill pump, drain pump), takes commands over HTTP, keeps its settings in a JSON
file and falls back to its own Wi-Fi access point. This project models that behaviour in Dafny 4.11
and proves what it does on every run. `dafny verify dfyconfig.toml` checks everything.

## The parts

* **Objects.** `DeviceHandler`, `AutomationHandler`, `WiFiHandler`, the JSON tree `ConfigTree.Variant` and
  `WebHandler.HandleRelais` update their fields in place as the firmware's static classes do. Each method
  is proved equal to a function on values (`Relays`, `Automation`, `Sensor`, `WiFi`, `ConfigFile`).
* **Runs.** `Controller` is a machine over the events "time passes", "API command", "relay poll", "ADC block done",
  "scan poll" and "automation poll", in any order and number. `Firmware.Execute` proves that the objects
  carry out exactly the machine's runs. `millis()` is the low 32 bits of an unbounded clock.
* **Claims about runs.** `LastWriter`, `FillFlag`, `TimedRelay`, `Independence`, `Override`, `Response`, `Overfill`, `OverfillGuard`.
* **ADC tasks.** `AdcTasks` takes the scan and the tasks it spawns apart into single reads and writes of the
  shared voltage and covers all interleavings, `AdcProgress` says what gets done; `InterleavedOverfill` closes the loop over them, `TimedOverfill` adds the clock.
* **Promises.** `Documented` states the automation and the timer as the documents describe them and when the code agrees.
* **Configuration merge.** `Merge` is the documented get-or-create merge, `WrittenMerge` the merge as coded.

## Main results

* Closed loop: while the firmware believes it is filling, the input level is below an explicit limit made of the
  maximum, the rounding, the filter's lag and the updates since the last sample (`Overfill.OverfillBound`), also under lost updates
  (`InterleavedOverfill.InterleavedOverfillBound`). With polls less than L ms apart and tasks that store within D ms, it is a
  function of L and D alone (`TimedOverfill.TimedOverfillBound`); with D below 1000 no update is lost
  (`TimedOverfill.PunctualTasksLoseNothing`). For which maxima the limit holds is exact (`OverfillGuard.GuardIsExact`).
  In the limits `Rise(m, d)` is m d (`Overfill.RiseIsProduct`).
* Response: the voltage is the filter over every block, and with polls less than L ms apart fill and drain decide on a level that was
  current less than 2000 + 2 L ms ago (`Response.FillStopsInTime`, `Response.FillStartsInTime`, `Response.PumpFollowsLevel`).
* The filter under lost updates is still the filter, run over a subsequence of the tasks; nothing is lost if and
  only if no task stores between another's load and store (`AdcTasks.VoltageIsFilterOfSomeTasks`, `AdcTasks.NoUpdateLostIff`).
* The documented merge is associative, idempotent, has the empty object as identity and is described along every
  path (`Merge`). The coded merge agrees with it if and only if `WrittenMerge.Agree` holds; wherever the target lacks an
  object of the source, the target is lost (`WrittenMerge.UncoveredCollapses`).
* Timed relays: what a command's deadline word does on every run, for every duration and over any number of rollovers
  (`TimedRelay.TimedRunOnWords`), and exactly when that is the commanded duration (`Relays.TimerIsExactIff`).
* The latch, its sharp chatter bound, manual stops, channel independence, and the automation's ownership of relay 2.

## Where code and documentation differ

Each entry names an input on which they differ and the lemma that says exactly when they agree.

* `AUTOMATION.md` says the drain pump runs between the maximum and the minimum; the code compares with the minimum only.
  At 90 percent with a maximum of 80 it runs (`Documented.PumpRunsAboveMaximum`, `Documented.PumpTickAsPromisedIff`, `Documented.PumpAsPromisedIff`).
* `AUTOMATION.md` says the fill pump starts when the level exceeds the fill level; the code starts at or below it
  (`Documented.FillDoesNotStartAbove`, `Documented.FillTickAsPromisedIff`, `Documented.FillAsPromisedIff`). A comment in `handleFill` says
  strictly below, which differs at the fill level itself (`Documented.FillTickAtFillLevelIff`).
* `setRelaisDuration` documents its duration in milliseconds and counts seconds (`Documented.DurationInMillisecondsIff`). It takes any `int`:
  5 s after boot a duration of -10 s leaves the relay on for 49.7 days (`Relays.NegativeDurationStaysOn`), and a due time past the
  clock rollover or on the "no timer" mark is missed as well. `Relays.TimerIsExactIff` says which durations are timed rightly.
* `checkConnection` documents a fallback by the time since a disconnection; the code counts 30 s from `setup`, and again after every
  2^32 ms. A connection lost 40 s after `setup` brings the access point up 1 ms later (`WiFi.FallbackTooEarly`), and one lost as the clock
  passes `setup` + 2^32 ms gets none for up to 30 s (`WiFi.FallbackSuppressed`). `WiFi.FallbackAsPromisedIff` and
  `WiFi.FallbackInFirstEpochIff` say which polls decide as documented; with dense polls the fallback is never late (`WiFi.FallbackNeverLate`).
* `FileHandler.cpp:237-249` promises that missing objects are created; `target.to<JsonObject>()` on line 265 empties the target first
  (`WrittenMerge.CodeMeetsDocumentationIff`, and for every configuration file `ConfigFile.MergesAsDocumentedIff`). A call of
  `mergeConfigFromBackup` with a missing or unreadable configuration would shrink the shipped backup to `hardware` and `ota`
  (`ConfigFile.MissingConfigKeepsTailOnly`, `ConfigFile.MissingConfigAsDocumentedIff`). Nothing in the repository calls it: a first start
  copies the backup (`FileHandler.cpp:73-85`), and a merge with the copy would be harmless (`ConfigFile.FirstStartThenMergeKeepsAll`).
* `getDuration` promises a result that is never negative; an expired timer that was not yet polled reports its overrun as a negative
  number (`Relays.GetDurationCanBeNegative`, `Relays.GetDurationMeetsPromiseIff`).
* A command with a duration may leave no timer: `setRelais` takes an `int8_t` and `setRelaisDuration` an `int`, so channel 257 switches
  relay 1 and drops the duration (`Relays.Channel257HasNoTimer`), and a deadline can hit the "no timer" mark (`Relays.MarkMeansNoTimer`,
  `Relays.TimedCommandArmsIff`).

## Assumptions

Except for ADC tasks, handlers are atomic and read `millis()` once. `unsigned long` and `int` have 32 bits, and signed
overflow wraps. Voltages and levels are reals. JSON objects have unique keys.
Of ArduinoJson the model takes this: `to<JsonObject>()` empties its variant, assigning through a key turns null into an object
and is ignored by any other value that is no object, and new keys go to the end.

## Model

| member | source | states |
|---|---|---|
| DeviceHandler.DeviceHandler.constructor | src/DeviceHandler.cpp:18-59 | the boot state: relays off, no timers, filter at 0 V, default calibration |
| DeviceHandler.DeviceHandler.SetRelais | src/DeviceHandler.cpp:339-357 | flag and pin of relay 1 or 2 take the state, its timer is disarmed, the other channel is untouched; for any other number flags and timers stay and at most one pin, unset in the source, is written |
| DeviceHandler.DeviceHandler.SetRelaisDuration | src/DeviceHandler.cpp:447-457 | arms the deadline on channels 1 and 2 with 32-bit arithmetic, does nothing for others |
| DeviceHandler.DeviceHandler.HandleRelais | src/DeviceHandler.cpp:84-98 | switches off and disarms exactly the channels whose deadline is reached |
| DeviceHandler.DeviceHandler.GetState | src/DeviceHandler.cpp:481-488 | the relay flag of channels 1 and 2, false for others |
| DeviceHandler.DeviceHandler.GetDuration | src/DeviceHandler.cpp:637-658 | the conversions between signed and unsigned words as coded, 0 for other channels |
| DeviceHandler.DeviceHandler.HandleBlink | src/DeviceHandler.cpp:119-132 | toggles LED state and pin exactly when the gate is due |
| DeviceHandler.DeviceHandler.HandleDisplay | src/DeviceHandler.cpp:270-285 | redraws exactly when enabled and due |
| DeviceHandler.DeviceHandler.HandleScan | src/DeviceHandler.cpp:234-245 | scans and spawns one ADC task exactly when due, else changes nothing |
| DeviceHandler.DeviceHandler.ScanSensors | src/DeviceHandler.cpp:195-213 | caches the four readings that belong to the present voltage |
| DeviceHandler.DeviceHandler.GetLevel | src/DeviceHandler.cpp:681-690 | clamped percentage, within [0, 100] |
| DeviceHandler.DeviceHandler.GetVolume | src/DeviceHandler.cpp:702-705 | the volume belonging to that level |
| DeviceHandler.DeviceHandler.ReadVoltage | src/DeviceHandler.cpp:556-579 | one filter update with the average accumulated by the sampling loop |
| AutomationHandler.AutomationHandler.SetPump | src/AutomationHandler.cpp:33-38 | relay 2 and the pump flag take the value, nothing else changes |
| AutomationHandler.AutomationHandler.HandlePump | src/AutomationHandler.cpp:48-61 | the pump runs exactly while the cached level is above the minimum |
| AutomationHandler.AutomationHandler.SetFill | src/AutomationHandler.cpp:74-79 | relay 1 and the fill flag take the value, nothing else changes |
| AutomationHandler.AutomationHandler.HandleFill | src/AutomationHandler.cpp:97-120 | the hysteresis decision on the cached level |
| AutomationHandler.AutomationHandler.Loop | src/AutomationHandler.cpp:146-182 | gate, then fill and pump (mode 1), fill (mode 2), or the switch-off of the default branch |
| AutomationHandler.AutomationHandler.constructor | src/AutomationHandler.cpp:11-20 | flags off, timestamp 0, the configured mode and thresholds |
| WebHandler.HandleRelais | src/WebHandler.cpp:152-170 | a request with an integer `channel` and a boolean `state`, and no other, is answered; if the channel names a relay, that relay takes the state, with a timer if an integer `duration` is there, and the other is untouched; for any other channel no flag or timer changes |
| Firmware.Firmware.Handle | src/main.cpp:64-86 | the code run for an event has the effect of the machine's step |
| Firmware.Firmware.Execute | src/main.cpp:64-86 | on any sequence of events the objects end in the state of the machine's run |
| Relays.GetDurationMeetsPromiseIff | src/DeviceHandler.cpp:615-658 | for all words, when exactly the result is the documented remaining time |
| Relays.GetDurationReports | src/DeviceHandler.cpp:633-658 | the reported value for every deadline and clock: 0 from 2^31 on, else the signed distance, minus the overrun once expired |
| Relays.GetDurationCanBeNegative | src/DeviceHandler.cpp:633-658 | an expired, unpolled timer yields a negative duration |
| Relays.GetDurationAfterPoll | src/DeviceHandler.cpp:84-98 | right after a relay poll the promise holds below 2^31 ms, and 0 means disarmed |
| Relays.TimerIsExactIff | src/DeviceHandler.cpp:84-98 | for every clock and duration: a timer decides rightly at every poll up to its due time and the rollover, if and only if the due time comes before the rollover and off the mark, or, for a negative duration, its deadline word has passed and is not the mark |
| Relays.NegativeDurationStaysOn | src/WebHandler.cpp:161-164 | a concrete negative duration leaves the relay on for weeks |
| Relays.TimerAcrossRollover | src/DeviceHandler.cpp:447-457 | a concrete command shortly before the rollover is cut off at once |
| Relays.TimedCommandArmsIff | src/WebHandler.cpp:155-165 | a timed command sets its relay and pin, and leaves a timer armed if and only if the channel is 1 or 2 as an `int` and the deadline is not the "no timer" mark |
| Relays.ApiRelaisCommands | src/WebHandler.cpp:155-165 | what a command leaves on its channel, timed or not, and that the other channel is untouched |
| TimedRelay.UntimedRun | src/WebHandler.cpp:155-158 | after a command without a duration the channel stays as commanded on every run, over any rollovers, while nobody else writes it |
| TimedRelay.TimedRunOnWords | src/DeviceHandler.cpp:84-98 | for every duration, on every run without another write and over any rollovers: on until the first relay poll whose `millis()` has reached the deadline word, then off and disarmed; on for good if the word is the mark |
| TimedRelay.TimedRunInEpoch | src/DeviceHandler.cpp:84-98 | until the rollover, every deadline off the mark switches at the time `millis()` reads it |
| TimedRelay.TimedRun | src/DeviceHandler.cpp:84-98 | until the rollover and without another write, a command whose deadline does not wrap keeps the relay on until the first relay poll at or after the due time, then off and disarmed |
| TimedRelay.OnTime | src/DeviceHandler.cpp:84-98 | with polls less than L apart: on before the due time, off from L ms after it or after the command |
| TimedRelay.OffForGood | src/DeviceHandler.cpp:84-98 | after such a poll the relay stays off on every continuation, over any number of rollovers, unless someone else writes it |
| TimedRelay.RemainingTime | src/DeviceHandler.cpp:637-658 | on those runs the reported time is due time minus clock, and 0 once the timer is gone |
| Gate.DueIsExact | src/AutomationHandler.cpp:155-160 | a gate that runs is truly due; below 2^32 ms of elapsed time the converse holds too |
| Gate.RefinesIdealGate | src/DeviceHandler.cpp:119-132 | over any number of rollovers the 32-bit gate runs when a gate on unbounded time would, if gap plus interval fit a word |
| Gate.FiresAreSpaced | src/DeviceHandler.cpp:234-245 | runs are at least an interval apart, at most T/I by time T, without any bound on the gaps |
| Gate.FiresKeepUp | src/DeviceHandler.cpp:234-245 | with polls at most L apart, at least floor(T/(I+L)) runs by time T |
| Gate.NeverOverdue | src/DeviceHandler.cpp:234-245 | with dense polls the last run is less than an interval before the last poll |
| Latch.LatchedIff | src/AutomationHandler.cpp:97-120 | for any thresholds: on if and only if the last decisive sample was a start |
| Latch.ChatterBound | src/AutomationHandler.cpp:97-120 | k switch-ons cost 2(k-1)(maxL - fillL) of movement of the samples |
| Latch.ChatterBoundIsTight | src/AutomationHandler.cpp:97-120 | for every k some samples reach that bound exactly |
| FillFlag.FillFlagIsLatch | src/AutomationHandler.cpp:146-182 | on every run the fill flag is the latch over the sampled levels; outside modes 1 and 2 both flags stay off |
| FillFlag.FillingMeansStartedAndNotStopped | src/AutomationHandler.cpp:97-120 | on every run, filling if and only if some sample started it and none since stopped it |
| FillFlag.OtherModesNeverWrite | src/AutomationHandler.cpp:171-178 | in the remaining modes the automation never writes a relay |
| FillFlag.FillModeSparesDrainPump | src/AutomationHandler.cpp:168-170 | in fill mode, on every run, the pump flag is off and the automation writes relay 1 only |
| FillFlag.OtherModesSwitchOff | src/AutomationHandler.cpp:171-178 | a tick in any other mode switches both relays off if a flag was on, and else changes nothing |
| FillFlag.OffModeDoesNothing | src/AutomationHandler.cpp:146-152 | mode 0 changes nothing, whatever the flags and the time |
| TimedRelay.UnownedChannelIsLeftAlone | src/AutomationHandler.cpp:161-179 | a channel the mode does not drive, such as relay 2 in fill mode, changes on no run but by the API or its own timer |
| FillFlag.ManualStopHolds | src/AutomationHandler.cpp:97-120 | a fill stopped by hand stays stopped until a sample at the maximum and a later restarting one, unless the API switches it on |
| FillFlag.FillingDoesNotChatter | src/AutomationHandler.cpp:97-120 | the chatter bound for the starts of filling on whole runs |
| LastWriter.FlagsAreLastWrites | src/DeviceHandler.cpp:339-357 | on every run relay flags and pins are the last write of all, automation flags the automation's last |
| LastWriter.DisagreementNeedsOtherWriter | src/AutomationHandler.cpp:33-38 | they disagree only while the last write came from the API or a timer |
| Independence.ErasureInvisible | src/DeviceHandler.cpp:339-357 | leaving out the other channel's commands changes nothing a channel shows |
| Independence.ChannelsAreIndependent | src/DeviceHandler.cpp:339-357 | devices that agree on a channel and on its events agree on it ever after |
| Independence.ReachableIsUncoupled | src/AutomationHandler.cpp:171-178 | the coupled default branch cannot break this from boot |
| Override.PumpFlagIsLastSample | src/AutomationHandler.cpp:48-61 | in mode 1, on every run, the pump flag is on if and only if the last sampled level was above the minimum |
| Override.GateStaysSound | src/AutomationHandler.cpp:153-160 | on every densely polled run the automation's timestamp stands for its true last tick |
| Override.TicksAreSpaced | src/AutomationHandler.cpp:153-160 | on every run, however polled, the automation ticks at most once per 1000 ms |
| Override.OverrideIsForgotten | src/AutomationHandler.cpp:158-167 | in mode 1 nothing left on channel 2 outlives AUTO_INTERVAL + L |
| Response.VoltageFiltersAllBlocks | src/DeviceHandler.cpp:556-579 | on every run the voltage is the filter over the averages of all blocks delivered |
| Response.CachedLevelIsRecent | src/DeviceHandler.cpp:234-245 | with polls less than L apart the cached level is that of the voltage less than 1000 + L ms ago |
| Response.SampleIsRecent | src/AutomationHandler.cpp:146-182 | and the level last sampled that of the voltage less than 2000 + 2 L ms ago |
| Response.FillStopsInTime | src/AutomationHandler.cpp:97-120 | a tank measured at the maximum for 2000 + 2 L ms is not being filled |
| Response.FillStartsInTime | src/AutomationHandler.cpp:97-120 | a tank measured at or below the fill level for that long is being filled |
| Response.PumpFollowsLevel | src/AutomationHandler.cpp:48-61 | in mode 1 the pump flag says whether a level that recent was above the minimum |
| Ema.ClosedForm | src/DeviceHandler.cpp:572-576 | 0.7^n v0 plus 0.3 times the inputs weighted by age |
| Ema.ForgetsStart | src/DeviceHandler.cpp:572-576 | two starts differ by exactly 0.7^n of their distance after n inputs |
| Ema.ConvergesOnConstant | src/DeviceHandler.cpp:572-576 | geometric convergence on a constant input |
| Ema.StaysInHull | src/DeviceHandler.cpp:572-576 | the output stays in every interval holding start and inputs |
| Ema.Monotone | src/DeviceHandler.cpp:572-576 | monotone in the start and in every input |
| Ema.TracksRise | src/DeviceHandler.cpp:572-576 | a rise of at most d per update leads by at most 0.7^n e0 + (7/3) d (1 - 0.7^n) |
| Ema.TracksFall | src/DeviceHandler.cpp:572-576 | the same for a fall |
| Sensor.AverageInHull | src/DeviceHandler.cpp:558-570 | a block average lies between its readings unless the 32-bit sum wraps |
| Sensor.AverageIsSum | src/DeviceHandler.cpp:558-570 | the average times the number of readings is their sum modulo 2^32 |
| Sensor.SumWordsExact | src/DeviceHandler.cpp:558-567 | the accumulator is the sum whenever the sum fits |
| Sensor.Round2Laws | src/DeviceHandler.cpp:831-834 | rounding is within 0.005, monotone, idempotent and odd |
| Sensor.CachedLevelInRange | src/DeviceHandler.cpp:681-690 | the cached level is within [0, 100] for either order of the calibration |
| Sensor.LevelOfFraction | src/DeviceHandler.cpp:681-690 | a fraction f of the way from minV to maxV is read as 100 f percent, below it as 0, above as 100, cached within 0.005 |
| Sensor.CachedTemperature | src/DeviceHandler.cpp:195-213 | the cached temperature is the one given within 0.005 |
| Sensor.CachedLevelMonotoneIff | src/DeviceHandler.cpp:681-690 | it rises with the voltage if and only if minV < maxV |
| Sensor.CachedCurrentMatchesVoltage | src/DeviceHandler.cpp:531-534 | the cached current times 120 ohm is the voltage up to rounding |
| Sensor.CachedVolumeAgrees | src/DeviceHandler.cpp:208-212 | volume and level of one voltage agree within 0.005 + tank * 0.00005 |
| Sensor.PercentOfFold | src/DeviceHandler.cpp:572-683 | filtering and converting to percent commute |
| Overfill.PipelineStaysSound | src/DeviceHandler.cpp:195-213 | on every run voltage, cached level and last sample come from known prefixes of the block averages |
| Overfill.OverfillBound | src/AutomationHandler.cpp:97-120 | while the fill flag is on, the input level is below maxL + 0.005 + lag + head start + rise since the sample |
| OverfillGuard.FillNeverEnds | src/AutomationHandler.cpp:97-120 | with a maximum above 100 percent an automated fill never ends, on any run |
| OverfillGuard.GuardIsExact | src/AutomationHandler.cpp:97-120 | the limit holds on all runs if and only if the maximum is at most 100, or above everything a block of readings can measure |
| InterleavedOverfill.InterleavedOverfillBound | src/DeviceHandler.cpp:157-164 | the limit on all interleavings of scans, tasks and automation in which no task is overtaken more than k times: the lag grows by the factor k + 1 |
| InterleavedOverfill.SampleRetainsEnough | src/DeviceHandler.cpp:572-576 | there the sampled voltage retains at least every (k + 1)-th update |
| TimedOverfill.TimedOverfillBound | src/AutomationHandler.cpp:97-120 | with polls less than L ms apart and tasks that store within D ms, the input level while filling is below a limit in L, D, the head start and the rise per update |
| TimedOverfill.FewOvertakers | src/DeviceHandler.cpp:195-213 | there at most 2 floor(D / 1000) tasks store between another's load and store |
| TimedOverfill.SpawnsStaySpaced | src/DeviceHandler.cpp:234-245 | tasks are created at least 1000 ms apart |
| TimedOverfill.PunctualTasksLoseNothing | src/DeviceHandler.cpp:195-213 | tasks that store within less than a scan interval lose no update: the voltage is the filter over all of them |
| TimedOverfill.UnseenOnRun | src/AutomationHandler.cpp:153-160 | while filling, at most floor((1999 + 2 L + D) / 1000) + 1 stores are not reflected in the level last sampled |
| AdcTasks.VoltageIsFilterOfSomeTasks | src/DeviceHandler.cpp:572-576 | under every interleaving the voltage after each store is the filter over a subsequence of the stores so far |
| AdcTasks.NoUpdateLostIff | src/DeviceHandler.cpp:572-576 | no update is lost if and only if no store falls between another task's load and store; then the voltage is the filter over all stores |
| AdcProgress.EveryTaskStores | src/DeviceHandler.cpp:157-164 | on every interleaving a task that delivers its block, loads and stores is among those that stored, and is filtered with that block's average |
| AdcProgress.UndisturbedTask | src/DeviceHandler.cpp:570-576 | left alone, a task applies one filter update with its block to the voltage |
| AdcProgress.UndisturbedScan | src/DeviceHandler.cpp:195-213 | left alone, a scan creates one task and caches the readings of the present voltage |
| AdcProgress.StoredAreDone | src/DeviceHandler.cpp:157-164 | the tasks that stored are exactly those that are done |
| AdcTasks.LostUpdate | src/DeviceHandler.cpp:572-576 | two tasks that both loaded: the first store leaves no trace |
| AdcTasks.VoltageInHull | src/DeviceHandler.cpp:157-164 | the voltage stays in every interval holding 0 and all block averages |
| AdcTasks.ScanReadsInOrder | src/DeviceHandler.cpp:195-213 | current, level and volume come from three ordered points of the voltage's history |
| AdcTasks.ScanSplits | src/DeviceHandler.cpp:195-213 | with at most one store during a scan they split at one point into old and new |
| Merge.Identity | src/FileHandler.cpp:237-249 | the empty object is a left and right identity |
| Merge.Idempotent | src/FileHandler.cpp:237-249 | merging an object into itself changes nothing |
| Merge.Associative | src/FileHandler.cpp:237-249 | associative, key order included |
| Merge.Absorbs | src/FileHandler.cpp:237-249 | merging the same backup twice is merging it once |
| Merge.KeysMerge | src/FileHandler.cpp:237-249 | target keys keep their places, new ones follow in source order |
| Merge.MergeAlongPath | src/FileHandler.cpp:237-249 | along every path the result combines what target and source hold there |
| Merge.MergeKeepsAddsInventsNothing | src/FileHandler.cpp:237-249 | target leaves survive, source paths are present, nothing is invented |
| WrittenMerge.UncoveredCollapses | src/FileHandler.cpp:258-279 | if the target lacks any object of the source at a level, the result is the source's last object, collapsed, and the leaves after it |
| WrittenMerge.FromEmpty | src/FileHandler.cpp:258-279 | merging into an empty object collapses the source |
| WrittenMerge.FindWritten | src/FileHandler.cpp:258-279 | where the target covers the source, what is found at each key |
| WrittenMerge.KeysWritten | src/FileHandler.cpp:258-279 | and in which order the keys are |
| WrittenMerge.CodeMeetsDocumentationIff | src/FileHandler.cpp:237-280 | the coded merge equals the documented one if and only if `Agree` |
| WrittenMerge.SelfAgrees | src/FileHandler.cpp:258-279 | the coded merge of an object with itself changes nothing |
| ConfigTree.MergeJsonObjects | src/FileHandler.cpp:251-280 | the in-place merge leaves the tree with the value the coded merge computes |
| ConfigTree.Variant.ResetTo | src/FileHandler.cpp:263-266 | the target becomes an object holding nothing but an empty one at the key |
| ConfigFile.OnObjects | src/FileHandler.cpp:251-280 | on object targets the document merge is the member-list merge |
| ConfigFile.OnOtherTargets | src/FileHandler.cpp:251-280 | null takes the leaves, other values ignore them, any object collapses the source |
| ConfigFile.SavesIff | src/FileHandler.cpp:178-230 | a document is saved if and only if the backup is readable and the file writable; a backup that is no object changes nothing |
| ConfigFile.MergesAsDocumentedIff | src/FileHandler.cpp:176-231 | for every configuration file, missing and unreadable ones included: the saved document is the documented merge if and only if `MergesAsDocumented`, a condition on the two files' structure |
| ConfigFile.MissingConfigAsDocumentedIff | src/FileHandler.cpp:198-216 | without a configuration: if and only if the backup is not empty and has objects only in first place at every level |
| ConfigFile.LosesConfiguration | src/FileHandler.cpp:198-216 | a missing, unreadable or uncovered configuration is replaced by the collapsed backup |
| ConfigFile.MissingConfigKeepsTailOnly | src/FileHandler.cpp:176-231 | a call with a missing or unreadable configuration would shrink the shipped backup to its last two entries |
| ConfigFile.FirstStartThenMergeKeepsAll | src/FileHandler.cpp:73-85 | after a first start, which copies the backup, the merge would keep every setting |
| WiFi.WiFiHandler.Setup | src/WiFiHandler.cpp:27-68 | station mode, or access point without credentials or connection |
| WiFi.WiFiHandler.StartAP | src/WiFiHandler.cpp:197-209 | access point mode, or both modes if combined; the flag is on, the timestamps are untouched |
| WiFi.WiFiHandler.StopAP | src/WiFiHandler.cpp:245-256 | the flag is off, the mode is left to the caller |
| WiFi.WiFiHandler.CheckConnection | src/WiFiHandler.cpp:137-185 | one poll, with the status free to change between its two reads |
| WiFi.ApFlagIsTruthful | src/WiFiHandler.cpp:137-217 | on every run after setup the flag says whether the access point is up, and else the mode is station |
| WiFi.AttemptsAreSpaced | src/WiFiHandler.cpp:161-171 | reconnect attempts are at least 5000 ms apart on every run, rollovers included |
| WiFi.ReconnectsIff | src/WiFiHandler.cpp:161-171 | in unbounded time: a poll reconnects if and only if it finds no connection and the last attempt is 5 s ago |
| WiFi.AttemptsAreGateRuns | src/WiFiHandler.cpp:161-171 | while no connection is found the attempts are the runs of a 5 s gate |
| WiFi.AttemptsKeepUp | src/WiFiHandler.cpp:161-171 | then, with polls at most a gap apart, the last attempt is less than 5 s old at the last poll, and at least floor(T / (5000 + gap)) happened by time T |
| WiFi.ModeOnRuns | src/WiFiHandler.cpp:27-68 | on every run: access point mode while the one from setup is up, both modes while the fallback's is, station mode else; and which outcome of setup starts one |
| WiFi.AccessPointUpIff | src/WiFiHandler.cpp:139-184 | on every run, for all readings: up if and only if it was up all along or a poll brought it up, and no first reading since was connected |
| WiFi.FallbackAsPromisedIff | src/WiFiHandler.cpp:120-136 | on every run, over any rollovers, for every poll without a connection, access point up or not: exactly when the access point is as the time since the disconnection says |
| WiFi.FallbackInFirstEpochIff | src/WiFiHandler.cpp:120-136 | the same for an outage without access point at its start and before setup + 2^32: within 30 s of setup, or more than 30 s after the disconnection |
| WiFi.FallbackTooEarly | src/WiFiHandler.cpp:173-184 | a concrete run: access point up 1 ms after the disconnection |
| WiFi.FallbackSuppressed | src/WiFiHandler.cpp:173-184 | an unconnected poll within 30 s of setup + k 2^32 ms brings no access point up, for every k |
| WiFi.FallbackNeverLate | src/WiFiHandler.cpp:139-184 | in every densely polled outage, over any rollovers, the access point is up more than 30 s after its start |
| Documented.PumpRunsAboveMaximum | AUTOMATION.md:12-13 | a concrete tick above the maximum switches the drain pump on |
| Documented.PumpTickAsPromisedIff | AUTOMATION.md:12-13 | a tick follows the documented pump rule if and only if the level is below the maximum or not above the minimum |
| Documented.PumpAsPromisedIff | AUTOMATION.md:12-13 | the same for the pump flag on every run and the level last sampled |
| Documented.FillDoesNotStartAbove | AUTOMATION.md:15-17 | a concrete level above the fill level does not start filling |
| Documented.FillTickAsPromisedIff | AUTOMATION.md:15-17 | a tick follows the documented fill rule if and only if it was filling already or the level is at the maximum |
| Documented.FillAsPromisedIff | AUTOMATION.md:15-17 | on every run the fill flag is the documented latch of the samples if and only if the samples since the last stop are none, or on both sides of the fill level |
| Documented.FillTickAtFillLevelIff | src/AutomationHandler.cpp:102-110 | the commented strict comparison is met except when starting at exactly the fill level |
| Documented.DurationInMillisecondsIff | src/DeviceHandler.cpp:429-457 | the deadline is the documented one in milliseconds if and only if the duration is 0, for all clocks and 32-bit wraps |
| Uptime.Display | data/index.html:660-687 | the text is the printer's and parses back to the uptime |
| Uptime.RoundTrip | data/index.html:660-687 | parsing the text gives back the seconds, for every natural number |
| Uptime.DisplayIsCanonical | data/index.html:660-687 | positive values only, hours below 24, minutes and seconds below 60, the greatest unit first; "0s" for zero |
| Uptime.Injective | data/index.html:660-687 | different uptimes are displayed differently |

## Left out

- Sensor.AverageInHull: reals instead of IEEE-754, so neither float rounding nor NaN.
- Overfill.OverfillBound: ADC updates and scans are single steps there; `InterleavedOverfill` and `TimedOverfill` are the versions for interleaved tasks.
- TimedOverfill.TimedOverfillBound: how long the scheduler lets a task run is the parameter D, and the rise is counted per update, not per second.
- ConfigTree.MergeJsonObjects: the source document is a value, so a source that shares nodes with the target is not modelled.
- Preemption of relay handlers by the asynchronous web task: handlers are atomic steps.
- Firmware.Firmware.Handle: API events name a relay (after the conversion to `int8_t`); what other numbers do is in `WebHandler.HandleRelais`.
- Which pin an unset pin variable names: any, in `DeviceHandler.SetRelais`.
- A calibration with minV equal to maxV, where the percentage divides by zero.
- The JSON parser and printer, LittleFS, and the configuration strings' conversion to floats.
- OLED drawing, HTTP routing, authentication, OTA, MQTT publishing, the disabled Matter code and the rest of the web page.
- The radio: its status is an input of each poll.
- CPU temperature: the scan rounds and caches whatever value it is given.
