# Ventilation controller: a verified model of the control core

The firmware runs on a Raspberry Pi Pico and switches a ventilation fan
through two relays: mains (fan on) and boost (fan at high speed). Every
100 ms, `periodic_task` does the following:

- it reads two temperature sensors through moving-average ring buffers;
- it places the external temperature in a band (COLD, MILD, HOT) with hysteresis;
- it expires a manual override whose timeout has passed;
- it looks up the desired control mode (OFF, ON, BOOST);
- it changes the relays no sooner than `change_delay_s` after the last change;
- it shows the state on six LEDs through a PIO control word;
- it advances a heartbeat counter;
- it sends a UDP status report when one is due.

`manual_setting` receives text commands such as `piv boost` that force a
mode for `manual_timeout_s`.

The model has six modules:

- `SampleHistory` (history.dfy) models fw/temperature.c.
  - The ring buffer is a value, `History`, and `Push` is one call of `update_history`.
  - The classes `SensorHistory` and `Temperature` hold the `int16_t` array, the index and the total.
  - Their methods update these in place and are proved equal to `Push`.
- `Leds` (leds.dfy) models fw/leds.c and the bit assignments of fw/leds.h.
  - `LedsOutputSet` is the loop of `leds_output_set`, with `bv32` indices like the C `uint`.
  - It is proved equal to `ControlWord`.
  - Lemmas give the field layout of the control word.
- `Control` (control.dfy) is the decision logic of `periodic_task`, written as functions on a `ControlState` value.
  - `Tick` is one whole run of `periodic_task`.
  - `Run` is a sequence of ticks; the lemmas about behaviour over time are stated on `Run`.
- `Commands` (commands.dfy) models the `strncmp` matching of `manual_setting`.
- `Settings` (settings.dfy) models `config_get_int`, `config_get_float`, `config_init` and `state_init`.
- `Controller` (controller.dfy) models `control_status_t` as the class `ControlStatus`.
  - The constructor is `state_init`, and `PeriodicTask` and `ManualSetting` update the fields in place.
  - Each is proved to perform exactly the corresponding `Tick`, `Commands.ManualSetting` or `InitialState`.

The following are parameters in the model:

- Time is an integer count of milliseconds since boot.
  - `time_reached(t)` is `now >= t`.
  - `make_timeout_time_ms(ms)` is `now + ms`.
  - `delayed_by_ms(t, ms)` is `t + ms`.
- Temperatures are `real`. The float conversions `temperature_external` and `temperature_internal` are parameters of type `int -> real`, applied to the history totals.
- ADC readings are parameters, and so is the WiFi status.

Notes on the code:

- `report_port` and `report_interval_s` stay 0 when `report_address` is missing or invalid (fw/main.c:444-451). The interval has no default of 30 s in that case.
- `temperature_external` has no sentinel values for out-of-range readings (fw/temperature.c:85-99).
- The next report is scheduled one interval after the previous schedule, not after `now` (fw/main.c:307).

## Model

| member | source | states |
|---|---|---|
| SampleHistory.Empty | fw/temperature.c:57 | the calloc'd history has every sample, the index and the total zero; it is well formed, within the ADC range, and its total already equals the sum of its samples |
| SampleHistory.Push | fw/temperature.c:39-47 | update_history writes the new sample at the index, leaves every other slot alone, changes the total by new minus old, and advances the index by one modulo HISTORY_SIZE |
| SampleHistory.PushAll | fw/temperature.c:39-47 | consecutive calls of update_history; after k pushes the index has advanced by k modulo HISTORY_SIZE |
| SampleHistory.PushKeepsTotal | fw/temperature.c:40-42 | if the total equals the sum of the buffer before a push, it still does after |
| SampleHistory.PushAllKeepsTotal | fw/temperature.c:39-47 | the sum invariant survives any number of pushes |
| SampleHistory.PushAllKeepsAdcRange | fw/temperature.c:49-54 | pushing 12-bit ADC readings keeps every buffered sample in 0..4095 |
| SampleHistory.TotalBounds | fw/temperature.c:23-31 | a consistent history of ADC samples has a total in 0..100*4095, so the `int` total cannot overflow |
| SampleHistory.PushAllPlacement | fw/temperature.c:43-46 | up to HISTORY_SIZE pushes land in consecutive slots from the index, wrapping at the end; slots not reached keep their samples |
| SampleHistory.ConstantFill | fw/temperature.c:70-73 | HISTORY_SIZE pushes of the same value v, from any consistent state, leave every slot equal to v, the index where it started and a total of 100*v |
| SampleHistory.FillFromEmpty | fw/temperature.c:56-75 | the pre-fill of a zeroed history with 100 readings leaves exactly those readings in order, index 0 and their sum as total |
| SampleHistory.WindowData | fw/temperature.c:39-47 | after the pre-fill, up to 100 further readings overwrite the oldest slots in order |
| SampleHistory.ShortWindow | fw/temperature.c:39-54 | after the pre-fill and up to 100 further readings, the total is the sum of the newest 100 readings |
| SampleHistory.PushAllAppend | fw/temperature.c:39-47 | pushing two runs of readings one after the other is pushing their concatenation |
| SampleHistory.FullTurn | fw/temperature.c:39-47 | 100 readings after the pre-fill replace the whole buffer, in order, with the index back at 0 and their sum as total |
| SampleHistory.SlidingWindow | fw/temperature.c:24-54 | after the pre-fill and any number of further readings, the total is the sum of the newest 100 readings (the moving average's numerator), for the whole run |
| SampleHistory.SensorHistory.constructor | fw/temperature.c:57 | a fresh zeroed buffer of HISTORY_SIZE samples |
| SampleHistory.SensorHistory.UpdateHistory | fw/temperature.c:39-47 | the in-place update of array, total and index equals `Push` and keeps the buffer valid |
| SampleHistory.Temperature.constructor | fw/temperature.c:56-75 | temperature_init yields two valid, distinct histories holding the 100 pre-fill readings of each sensor and their sums |
| SampleHistory.Temperature.Prefill | fw/temperature.c:70-73 | the pre-fill loop pushes the readings of both channels in order |
| SampleHistory.Temperature.TemperatureUpdate | fw/temperature.c:49-54 | exactly one push into the internal history and one into the external history, neither touching the other channel; both histories stay within the ADC range, so both totals stay in 0..100*4095 |
| Leds.LedsOutputSet | fw/leds.c:60-69 | the loop over the six LEDs returns `ControlWord(state)` |
| Leds.ControlWord | fw/leds.c:60-69 | the control word of an LED state; nothing is set above its six 3-bit fields (below 2^18), proved from the same bound for the first n fields |
| Leds.ClosedForm | fw/leds.c:63-67 | the control word is the OR of the six per-LED contributions |
| Leds.FieldOf | fw/leds.c:58-67 | bits 3i..3i+2 hold on_bit_table[i] when LED i is lit and 0 otherwise |
| Leds.FieldLayout | fw/leds.c:58-67 | the field layout holds for all six LEDs; the word is below 2^18; a lit LED sets exactly one bit of its field |
| Leds.EmptyState | fw/leds.c:61-67 | all LEDs dark gives the zero word |
| Leds.HighBitsIgnored | fw/leds.c:63-64 | state bits above bit 5 do not affect the word |
| Leds.OrComposition | fw/leds.c:63-67 | the word of `a \| b` is the OR of the words of a and b |
| Leds.Injective | fw/leds.c:58-67 | different LED states (in the six LED bits) give different words |
| Control.SecondsToMs | fw/main.c:244 | a delay of at least 1 s is at least 1000 ms (the conversion without 32-bit wrap-around) |
| Control.NextBand | fw/main.c:165-187 | COLD only moves to MILD, exactly when temp > not_cold; HOT only moves to MILD, exactly when temp < not_hot; from MILD, COLD exactly when temp < cold, HOT exactly when temp > hot and not below cold (the cold test wins) |
| Control.ComfortableIsMild | fw/main.c:165-187 | with ordered thresholds, a reading strictly between not_cold and not_hot gives MILD from every band |
| Control.IsManual | fw/main.c:91-99 | is_manual_mode holds exactly for MANUAL_OFF, MANUAL_ON and MANUAL_BOOST |
| Control.ExpireManual | fw/main.c:189-193 | a manual mode becomes AUTO exactly when now has reached its end time; AUTO and AUTO_DARK never change |
| Control.Desired | fw/main.c:195-223 | ON exactly for MANUAL_ON or AUTO in MILD; BOOST exactly for MANUAL_BOOST or AUTO_DARK in MILD; the automatic modes run the fan exactly in MILD |
| Control.ManualIgnoresBand | fw/main.c:91-99 | a mode counts as manual exactly when its desired control mode does not depend on the band |
| Control.RelaysFor | fw/main.c:230-243 | mains is on exactly unless OFF, boost exactly in BOOST, so boost never runs without mains |
| Control.LedMask | fw/main.c:248-291 | POWER always; HEARTBEAT exactly when the counter is 0; MAINS exactly unless OFF; BOOST exactly in BOOST; COLD and HOT follow the band in automatic modes and flash on counter 2 and 1 in manual modes; never both; nothing above bit 5 |
| Control.NextHeartbeat | fw/main.c:296-303 | the counter stays in 0..9; it becomes 0 exactly when it was positive with WiFi down or had reached 9; otherwise it increments |
| Control.Tick | fw/main.c:159-310 | one periodic_task. The relays are written exactly when the desired mode differs and the dwell time is over; they then follow the new mode and the dwell timer is re-armed from now; otherwise mode and timer are unchanged. The LEDs use the counter from before this tick. A report is due exactly at its time or after a change, and the next one is one interval after the previous schedule. The invariant is kept |
| Control.TickIgnoresOldTemperature | fw/main.c:161-162 | a tick depends only on the temperature just read, not on the stored one |
| Control.Run | fw/main.c:159-310 | consecutive periodic_task calls; ticks never move the manual end time, and the stored external temperature is that of the last tick |
| Control.RunKeepsValid | fw/main.c:296-303 | the heartbeat counter stays in 0..9 over any number of ticks |
| Control.DwellHolds | fw/main.c:225-246 | while now is before the dwell timer, the control mode and the timer stay unchanged, whatever the temperature |
| Control.ChangesAreSpaced | fw/main.c:225-246 | after a change at time t, no tick before t + change_delay_s changes the mode again |
| Control.ManualHeld | fw/main.c:189-193 | a manual mode and its end time persist through every tick before the end time |
| Control.ManualExpires | fw/main.c:189-193 | a manual mode holds until its end time and the first tick at or after it returns to AUTO |
| Control.HotPersists | fw/main.c:170-174 | once HOT, the band stays HOT while the temperature stays at or above not_hot |
| Control.ColdPersists | fw/main.c:166-169 | once COLD, the band stays COLD while the temperature stays at or below not_cold |
| Control.HeartbeatCounts | fw/main.c:296-303 | with WiFi up the counter after k ticks is (c + k) mod 10, so the heartbeat LED lights once every ten ticks |
| Control.HeartbeatWithoutWifi | fw/main.c:297-298 | with WiFi down the counter alternates between 0 and 1, so the LED flashes twice as often |
| Control.ControlLabel | fw/main.c:102-111 | the report says OFF, ON or BOOST, each exactly for its control mode |
| Control.BandLabel | fw/main.c:113-123 | the report says COLD, MILD or HOT, each exactly for its band |
| Control.MakeReport | fw/main.c:101-136 | the report carries the stored external temperature, the internal temperature, the labels of the current mode and band, the auto flag (`AutoFlag`: 1 in an automatic mode, 0 in a manual one) and the uptime |
| Control.LabelsDistinct | fw/main.c:102-123 | different control modes get different labels, and so do different bands |
| Control.AutoFlag | fw/main.c:134 | the report's auto flag is 1 exactly in AUTO and AUTO_DARK |
| Control.ReportRoundTrip | fw/main.c:101-136 | a reader that maps the labels back (the model's own reference reader; the firmware only writes the text) recovers the controller's mode and band; the auto flag and the external temperature are reported faithfully |
| Commands.StrnEqual | fw/main.c:350-362 | strncmp(command, literal, n) == 0 for a NUL-terminated literal; when it holds for a literal without NUL of at least n characters, the first n characters of command and literal agree |
| Commands.StrnEqualMeaning | fw/main.c:350 | `strncmp(command, literal, size) == 0` with size the command length holds exactly when the command is a prefix of the literal, or the whole literal followed by a NUL |
| Commands.MatchFrom | fw/main.c:350-365 | the result is the mode of the first matching literal in the order tried, and none exactly when no literal matches |
| Commands.MatchCommand | fw/main.c:350-365 | the mode selected by a command is that of the first literal it matches in the order auto, dark, on, boost, off |
| Commands.LiteralsSelectTheirMode | fw/main.c:350-365 | every literal, alone or followed by a NUL and anything else, selects its own mode |
| Commands.PrefixesSelectAuto | fw/main.c:350-352 | every prefix of "piv auto", the empty command included, selects AUTO |
| Commands.UnknownCommand | fw/main.c:347-372 | "piv nonsense" selects nothing |
| Commands.ManualSetting | fw/main.c:347-372 | success exactly when a literal matches; then the mode is set and the end time is now + manual_timeout_s; otherwise nothing changes |
| Commands.ManualUntilTimeout | fw/main.c:366-367 | a recognised manual command holds through every tick before now + manual_timeout_s, and the first tick at or after it returns to AUTO |
| Settings.ConfigGetInt | fw/main.c:412-429 | a stored value in [min, max] is used, anything else gives the default; the result is in range when the default is |
| Settings.TruncateTowardZero | fw/main.c:407 | float-to-int conversion drops the fraction toward zero |
| Settings.ConfigGetFloatAsWritten | fw/main.c:396-410 | the value read, or the default, comes back truncated to an integer |
| Settings.ConfigGetFloat | fw/main.c:396-410 | the stored threshold is used unchanged, else the default |
| Settings.ThresholdsTruncated | fw/main.c:396-410 | the stored threshold 2.5 reads back as 2.0 and 0.5 and 0.9 collapse to 0, where the intended reading keeps 2.5 |
| Settings.TimeoutMsAsWritten | fw/main.c:486-488 | `x_s * 1000` as the C code computes it, wrapped to 32 bits, is below 2^32 and agrees with the true product whenever that product is below 2^32 |
| Settings.TimeoutWraps | fw/main.c:439 | change_delay_s = 4294968 is accepted but gives a 704 ms timeout, shorter than the one for 4294967 s |
| Settings.DelayMonotone | fw/main.c:244 | the intended conversion grows with the delay and never undercuts it |
| Settings.ConfigInit | fw/main.c:431-458 | thresholds from the store or 0/2/28/30; change_delay_s and manual_timeout_s at least 1; ports within 0..65535; change_delay_s, manual_timeout_s and control_port are what config_get_int returns for their keys, ranges and defaults; report port and interval are read the same way when the report address is valid and are 0 otherwise |
| Settings.DefaultConfig | fw/main.c:433-457 | an empty store gives thresholds 0, 2, 28, 30 (ordered), 30 s dwell, a one-day manual timeout and no reports |
| Settings.ConfigInitKeepsOrder | fw/main.c:433-436 | stored thresholds that are ordered stay ordered in the configuration |
| Settings.InitialState | fw/main.c:460-489 | state_init gives band MILD, mode AUTO, relays OFF, heartbeat 0 and the three deadlines one interval after start |
| Settings.QuietAfterStart | fw/main.c:486 | the relays stay OFF for change_delay_s after start-up |
| Controller.ReportSent | fw/main.c:139-157 | a report goes out exactly when a report port is configured, and it is the make_report of the current state with the uptime in whole seconds |
| Controller.ControlStatus.constructor | fw/main.c:460-489 | the fields equal `InitialState` for the configuration read, with the external temperature taken from the pre-filled history |
| Controller.ControlStatus.PeriodicTask | fw/main.c:159-310 | pushes one reading per sensor, then the fields, relays, LED control word and report are those of `Tick` on the fresh external temperature |
| Controller.ControlStatus.Decide | fw/main.c:164-309 | the in-place decision steps equal one `Tick` |
| Controller.ControlStatus.UpdateBand | fw/main.c:165-187 | only the band changes, to `NextBand` |
| Controller.ControlStatus.LeaveManualMode | fw/main.c:189-193 | only the manual mode changes, to `ExpireManual` |
| Controller.ControlStatus.DecideControlMode | fw/main.c:195-223 | only the next mode changes, to `Desired` |
| Controller.ControlStatus.ChangeControlMode | fw/main.c:225-246 | the debounced change: relays written and timer re-armed exactly when next differs and the dwell is over; otherwise nothing changes |
| Controller.ControlStatus.LedState | fw/main.c:248-291 | the mask built by successive ORs equals `LedMask` |
| Controller.ControlStatus.UpdateHeartbeat | fw/main.c:296-303 | only the counter changes, to `NextHeartbeat` |
| Controller.ControlStatus.ManualSetting | fw/main.c:347-372 | the fields change exactly as `Commands.ManualSetting` says, and a report goes out only on success |

## Left out

- Out-of-range enum values: the C `default:` arms (an unknown band resets to MILD, an unknown manual mode gives OFF, an unknown control mode drives both relays off) cannot be reached, because bands and modes are datatypes.
- The float conversions `temperature_internal` and `temperature_external` (`logf`, float rounding) are parameters from the history total to degrees Celsius.
- Comparisons of temperatures and thresholds are exact on reals, not on single-precision floats.
- `temperature_copy` and the raw-sample dump: the body of `temperature_copy` is not part of this model.
- UDP sockets, the remote handlers and the structure dump are left out. The report is returned as a value, not sent. A missing socket and a failed `pbuf_alloc` are not modelled.
- The text layout of the report (`snprintf`, `%1.1f`) is left out. Only its fields and labels are modelled.
- The settings store, `strtol`, `strtof` and `ipaddr_aton` are left out. Each key arrives already parsed as `Option`, and the report address only as "valid or not".
- The interrupt masking around `periodic_task` and `manual_setting` is left out. The model treats them as separate sequential calls.
- Hardware set-up is left out: GPIO, ADC and PIO initialisation, `pio_sm_put_blocking`, the 100 ms main loop and the allocation-retry loops. The relay levels and the LED control word are returned as values.
- `absolute_time_t` is an unbounded integer of milliseconds. Its 64-bit microsecond range is not modelled.
- Controller.ControlStatus.PeriodicTask and Controller.ControlStatus.ManualSetting take `now` in milliseconds since boot. The uptime in the report is `now / 1000`.

## Findings

| source | as written | input that shows it | evidently intended | confidence | as-written member | corrected member |
|---|---|---|---|---|---|---|
| fw/main.c:396-410 | `config_get_float` is declared to return `int`, so every threshold (stored or default) is truncated toward zero before being stored in the float field | `cold_threshold` = 0.5 and `not_cold_threshold` = 0.9 both become 0, which removes the hysteresis; 2.5 becomes 2.0 | return `float` and keep the stored value | not executed; high (the return type contradicts the `float` fields and `strtof`) | Settings.ConfigGetFloatAsWritten (shown by Settings.ThresholdsTruncated) | Settings.ConfigGetFloat (used by Settings.ConfigInit; Settings.ConfigInitKeepsOrder) |
| fw/main.c:486-488 | `change_delay_s * 1000` (likewise report and manual timeouts) is an `int` product passed as a `uint32_t` millisecond count, although `config_init` accepts values up to INT_MAX | change_delay_s = 4294968 gives a 704 ms dwell, while 4294967 gives 4294967000 ms | a delay in milliseconds that grows with the configured seconds (a 64-bit product, or a maximum of INT_MAX / 1000) | not executed; medium (needs an extreme configuration) | Settings.TimeoutMsAsWritten (shown by Settings.TimeoutWraps) | Control.SecondsToMs (used by Control.Tick; Settings.DelayMonotone) |
