# mini-iot control loop and command handler, in Dafny

A model of the decision and command logic of the `mini-iot` ESP32 firmware
(`main/app_main.c`), with proofs of its properties.

**The control task (`get_task`).** Each iteration does the following:
- it oversamples ADC1 channel 0 (64 raw conversions summed into a `uint32_t`, then
  divided by 64);
- it converts the calibrated millivolts to degrees Celsius (`/ 2`, then `/ 10`);
- it chooses one of three indicator colours and drives exactly one of three LEDs;
- it maps the temperature piecewise-linearly to a fan duty applied through the MCPWM H-bridge;
- it publishes one telemetry record whose `save` flag is 1 only in the first record of a
  task run.

A counter `x` is tested against 300 before it is incremented, so the 301st iteration
restarts the device.

**The command handler (`mqtt_data_handle`).** It works in three stages:
- it copies the topic and the payload of every inbound message into the 30-byte global
  buffers `mqtt_topic` and `mqtt_data`, clearing each first with
  `memset(buf, 0, strlen(buf))`;
- it compares the topic's C string with `"/mofuban/ledtoggle"`: a match flips
  `ledbt_status` and publishes `"0"` or `"1"` on `"/mofuban/ledstat"`;
- it compares the topic's C string with `"/mofuban/alarmset"`: a match stores the payload
  in `alarmtime` and sets `alarmsetted`, but only when the alarm pattern matches.

Modules, one per component of the source file:
- `Outputs` holds the side effects as values: GPIO writes, MCPWM calls and MQTT
  publications. GPIO writes and MCPWM calls each have an interpreter giving the final LED
  levels and bridge outputs; a publication is only a record of what is handed to the MQTT
  client.
  `brushed_motor_forward` and `brushed_motor_stop` are call sequences.
- `Sensor` holds the oversampling loop (`SampleAdc`) against its specification
  `Reading`, and the voltage-to-temperature scaling.
- `ModeSelector` holds the colour chain, the LED writes, the fan-speed chain and the
  motor calls.
- `ControlLoop` holds `get_task` as the method `GetTask`. It runs over a finite stream of
  per-iteration inputs; `x` and `save` are its locals, as in the source. It is proved
  against the one-iteration function `Cycle`.
- `CStrings` holds the C-string view of the buffers: `strlen`, the string `strcmp`,
  `regexec` and `strcpy` see, and the handler's clear-and-copy.
- `Commands` holds the command dispatch as the pure function `Dispatch`. The class
  `Globals` holds the two buffers as arrays and, as fields, the three bt.c globals the
  commands decide on (`ledbt_status`, `alarmtime`, `alarmsetted`). Its method
  `HandleMessage` clears and copies in place and is proved against `Dispatch`. It keeps the
  invariant that each buffer's last byte is NUL for every message shorter than 30 bytes, so
  it also covers the messages with embedded NULs of the finding below.

Inputs and foreign parts:
- Temperatures, voltages and duties are Dafny `real`s. These are exact, not IEEE `float`s.
- The raw ADC conversions are an input sequence.
- The ADC calibration (`esp_adc_cal_raw_to_voltage`) is a function parameter
  `calibrate: nat -> nat`.
- The `%c` and `%H.%M` clock strings are inputs.
- The value of the shared `ledbt_status` read when a record is built is an input.
- The verdict of the alarm regular expression is a parameter `matches: string -> bool`,
  because `regexbt` is compiled in `bt.c`.
- `bt.c` is not part of this model. The pin number of `LED_BT` is unknown, so it is the
  symbolic pin `BtLed`.

Where the code does something other than its names suggest, the model follows the code:
- `ledbt_status` is tested for non-zero, not as a boolean: any non-zero value toggles to 0.
- The duty cycle is not clamped before it reaches the driver. It is in [0, 100] by
  construction (`ModeSelector.FanSpeed`).
- The counter is incremented at the top of the iteration, after the restart test.
- `save` is a local of the task, so it is 1 in the first record of each task run. A run is
  started at every MQTT connect, not once per boot (see "## Left out").
- Topics and payloads are not truncated to the buffers. One of exactly 30 bytes fills its
  buffer and leaves no NUL, so `strcmp`, `regexec`, `strcpy` and the next call's `strlen`
  read past the buffer; a longer one writes past it. The model makes fewer than 30 bytes a
  precondition.

## Model

| member | source | states |
|---|---|---|
| `Outputs.ForwardDrivesOperatorA` | main/app_main.c:131-136 | from any bridge state, forward leaves operator B low and operator A pulsing active-high at exactly the given duty |
| `Outputs.StopHaltsBridge` | main/app_main.c:138-142 | from any bridge state, stop leaves both operators low |
| `Outputs.LastWriteWins` | main/app_main.c:187-199 | a pin ends at the level of the last gpio_set_level call that names it |
| `Sensor.SampleAdc` | main/app_main.c:172-177 | the loop's result is the uint32 sum of the 64 conversions, reduced modulo 2^32 and divided by 64 (`Reading`) |
| `Sensor.Reading` | main/app_main.c:177 | the reading is below 2^32 / 64 |
| `Sensor.TwelveBitReadingIsMean` | main/app_main.c:172-177 | with 12-bit conversions the sum cannot wrap, the reading is the integer mean and lies between any lower and upper bound of the samples |
| `Sensor.ReadingAtMostLargest` | main/app_main.c:172-177 | with 12-bit conversions the reading is at most the largest conversion |
| `Sensor.DriverErrorWraps` | main/app_main.c:175 | one -1 among 63 zeros wraps the accumulator: the reading is 67108863 |
| `Sensor.Convert` | main/app_main.c:179-181 | the LM35 voltage times 2 is the calibrated voltage, and the temperature times 10 is the LM35 voltage |
| `Sensor.ConvertMonotone` | main/app_main.c:179-181 | the temperature is strictly increasing in the millivolts |
| `ModeSelector.SelectColour` | main/app_main.c:185-200 | blue iff below 25, green iff 25 to 30 inclusive, red iff above 30 |
| `ModeSelector.SelectColourMonotone` | main/app_main.c:185-200 | a warmer reading never selects a cooler colour |
| `ModeSelector.Label` | main/app_main.c:186-196 | the label is non-empty and fits the 10-byte `color` buffer with its NUL |
| `ModeSelector.LabelInjective` | main/app_main.c:186-196 | distinct colours have distinct labels |
| `ModeSelector.IndicatorExclusive` | main/app_main.c:185-200 | from any LED state, the colour's LED is at 1, the other two are at 0, and no other pin changes |
| `ModeSelector.IndicatorIdempotent` | main/app_main.c:185-200 | applying the same colour's writes again changes nothing |
| `ModeSelector.FanSpeed` | main/app_main.c:202-211 | the speed is in [0, 100]; it is 0 iff the temperature is at most 25, and 100 iff at least 35 |
| `ModeSelector.FanSpeedMonotone` | main/app_main.c:202-211 | the speed is non-decreasing in the temperature |
| `ModeSelector.FanSpeedRampInverse` | main/app_main.c:205-207 | a speed strictly between 0 and 100 is reached exactly at 25 + speed / 10 degrees |
| `ModeSelector.MotorFollowsSpeed` | main/app_main.c:202-211 | the motor is stopped iff the speed is 0, and is otherwise driven forward at the speed |
| `ModeSelector.MotorOutputs` | main/app_main.c:202-211 | operator B ends low; operator A ends low at speed 0 and pulses at the speed otherwise |
| `ControlLoop.GetTask` | main/app_main.c:144-225 | the task restarts iff more than 300 iterations are requested; exactly min(n, 300) records are produced, iteration i is `Cycle` with `save` 1 for i = 0 and 0 after |
| `ControlLoop.CycleConsistent` | main/app_main.c:172-220 | the record's adc is the oversampled reading, its temperature is a twentieth of the calibrated voltage, its label names the colour whose LED alone is lit, and the motor runs at its speed |
| `ControlLoop.ThresholdsInMillivolts` | main/app_main.c:179-211 | blue iff below 500 mV, green iff 500 to 600 mV, red iff above 600 mV; fan off iff at most 500 mV, full iff at least 700 mV |
| `ControlLoop.ThreeIterations` | main/app_main.c:158-220 | voltages for 20, 28 and 40 degrees give BLUE, GREEN, RED, speeds 0, 30, 100 and save flags 1, 0, 0 |
| `CStrings.Strlen` | main/app_main.c:228-229 | strlen is the index of the first NUL |
| `CStrings.UpToNul` | main/app_main.c:237 | the string strcmp sees is the longest NUL-free prefix, ended by a NUL when shorter than the buffer |
| `CStrings.ClearToStrlen` | main/app_main.c:228-229 | the bytes before the first NUL become NUL, and the first NUL and everything after it are kept, so the length is unchanged |
| `CStrings.CopyIn` | main/app_main.c:230-235 | the first bytes become the received bytes and the rest is unchanged |
| `CStrings.ClearTerminated` | main/app_main.c:228-229 | on a buffer holding a string followed by NULs, clearing up to strlen clears all of it |
| `CStrings.ReceiveIntoTerminated` | main/app_main.c:228-235 | on such a buffer, with fewer bytes than the buffer, clear-and-copy leaves exactly the received bytes followed by NULs |
| `CStrings.ReceivedString` | main/app_main.c:228-235 | after a whole-buffer clear the buffer is NUL-terminated, its C string is that of the received bytes, and NUL-free bytes keep it terminated |
| `CStrings.ReceiveIntoBuffer` | main/app_main.c:228-235 | with fewer bytes than the buffer, a buffer ending in NUL still ends in NUL after clear-and-copy, whatever it held before; a clean buffer takes exactly the message, whose C string it then holds, and a NUL-free message leaves it clean |
| `CStrings.StaleBytesAfterEmbeddedNul` | main/app_main.c:228-235 | as written, the message "ab", NUL, "5" followed by "12." leaves the C string "12.5" |
| `Commands.Flip` | main/app_main.c:238-244 | the new status is 0 or 1, and it is 1 iff the old status was 0 |
| `Commands.DecimalText` | main/app_main.c:245 | the status text is one decimal digit whose value is the status |
| `Commands.ToggleCommand` | main/app_main.c:237-247 | a toggle message flips the status whatever its payload, drives LED_BT to the new status, publishes "1" or "0" on the status topic and leaves the alarm alone |
| `Commands.ToggleTwiceRestores` | main/app_main.c:237-247 | two toggles restore a status of 0 or 1, whatever the payloads |
| `Commands.TogglePublishesAlternately` | main/app_main.c:237-247 | from status 0 the toggles publish "1", then "0" |
| `Commands.AlarmCommand` | main/app_main.c:249-256 | an alarm message sets the alarm to the payload and alarmsetted to 1 iff the pattern matches, else changes nothing; it has no effects |
| `Commands.UnknownTopicIgnored` | main/app_main.c:237-257 | any other topic changes nothing and has no effect |
| `Commands.AlarmOnlyThroughMatch` | main/app_main.c:249-256 | the alarm changes only through a matching alarm message, and once set it stays set |
| `Commands.ClearBuffer` | main/app_main.c:228-229 | the array afterwards is `ClearToStrlen` of its old contents |
| `Commands.CopyBytes` | main/app_main.c:230-235 | the array afterwards is `CopyIn` of its old contents and the bytes |
| `Commands.Globals.constructor` | main/app_main.c:61 | the buffers start as 30 NULs, so they end in NUL and are clean; the bt.c globals start at the assumed values 0, empty and 0 |
| `Commands.Globals.HandleMessage` | main/app_main.c:227-258 | each buffer becomes the strlen clear of its old contents with the message copied in, and still ends in NUL; the globals and effects are `Dispatch` of the old globals on the buffers' C strings; on clean buffers each buffer holds exactly the message followed by NULs, the commands see the message's own C strings, and NUL-free messages keep the buffers clean |
| `Commands.Globals.Execute` | main/app_main.c:237-257 | the new globals and the effects are `Dispatch` of the old globals |

## Left out

- Wi-Fi/Ethernet bring-up, NVS, the SNTP time sync, the timezone and `app_main` are left out. They are network and boot I/O.
- The eFuse checks, `mcpwm_gpio_init`, `mcpwm_init`, the GPIO direction setup and the ADC width/attenuation setup are left out. They are one-time peripheral configuration. The 12-bit width appears only as the bound in the two 12-bit lemmas, `Sensor.TwelveBitReadingIsMean` and `Sensor.ReadingAtMostLargest`.
- MQTT client configuration, connection, subscription and event dispatch are left out: `mqtt_app_start`, `mqtt_event_handler`, `mqtt_event_handler_cb`, including the status publish at connect time. They are calls into the MQTT library. Only the publications the core makes are recorded, with topic, QoS 1 and retain 0. The message id (`msg_id`) is not modelled.
- The ADC calibration is left out as foreign code: it is the parameter `calibrate`. The `uint32_t` to `float` conversion of the voltage is exact here.
- `strftime`, the `sprintf` JSON text and its `%.2f` rounding are left out; the record is kept as a value with the same fields. Logging (`ESP_LOGI`) is left out.
- `check_alarm`, `regexbt`, `regexec` and the Bluetooth code are left out: they are in `bt.c`, which is not part of this model. The model records the `%H.%M` string a cycle hands to `check_alarm`. The pattern is the parameter `matches`.
- Concurrency between the MQTT dispatch context and the control task over the shared globals is left out. The control task sees `ledbt_status` as a per-iteration input.
- `vTaskDelay` timing is left out.
- `esp_restart` is the `restarted` outcome of `ControlLoop.GetTask`. A new task run is a new call.
- IEEE `float` rounding of the scaling and of the speed is left out: the model uses reals.
- ControlLoop.GetTask: the endless loop runs over a finite input stream. The statement is about every finite prefix of a run.
- ControlLoop.GetTask: models one run of the task. Every MQTT connect starts another run with `xTaskCreate` (main/app_main.c:265, 278), with its own `x` and `save`. That run goes on alongside the earlier ones, which keep publishing and driving the LEDs and the bridge. So a `save` of 1 marks the first record of a run, not of the boot. The interleaving of several runs is not modelled.
- Two globals that `mqtt_data_handle` writes are not kept as state. `reti` (main/app_main.c:250) holds the `regexec` verdict; the model uses the verdict directly as `matches`, and the non-zero failure codes are not modelled. `temp_string` (main/app_main.c:245) holds the `%d` text; the model records the text only as the published payload.
- Commands.Globals.HandleMessage: requires topic and payload shorter than 30 bytes. The code does not check. A message of exactly 30 bytes leaves its buffer without a NUL, so the string functions read past the buffer; a longer one writes past it.
- The bt.c globals are assumptions, because bt.c is not part of this model: `ledbt_status` and `alarmsetted` start at 0 and `alarmtime` starts empty. `ledbt_status` is an `int` because the code prints it with `%d` and tests it for non-zero (main/app_main.c:238, 245). The size of `alarmtime` is unknown, so `strcpy` into it is not bounded.

## Findings

| source | as written | input that shows it | evidently intended | confidence | as-written member | corrected member |
|---|---|---|---|---|---|---|
| main/app_main.c:228-229 | `memset(buf, 0, strlen(buf))` clears only the bytes before the first NUL. Bytes of an earlier message after an embedded NUL survive and join the next, shorter message | a message with payload "ab", NUL, "5", then an alarm-set message with payload "12.": `regexec` and `strcpy` see "12.5" | clear the whole 30-byte buffer, so the buffer's C string is that of the message just received | not executed; follows from the code as written | `CStrings.StaleBytesAfterEmbeddedNul` | `CStrings.ReceivedString` |
