# FORNO_INDUSTRIAL — a verified model of the furnace's control and telemetry core

FORNO_INDUSTRIAL supervises an industrial furnace. The supervisor runs in one of two modes:

- a simulated furnace inside the API (`SimulatedDevice`);
- a microcontroller on a serial port (`ArduinoDevice`).

There are two firmware variants for the microcontroller. The "good" one runs the same safety state machine as the simulator. The "bad" one is a deliberately weak command interpreter with PWM outputs, an emergency-stop latch and a JSON telemetry line. A browser dashboard colours gauges, state labels and charts by temperature.

This project models that core in Dafny, one module per program part:

- **`SimulatedFurnace`** (`simulated_device.dfy`): one simulation cycle, in order:
  - the critical check: the interlock engages at 1750 and releases at or below the set-point;
  - the alarm at 1600;
  - the heater/fan control;
  - the thermal step: +5, −8, −2, clamped to [25, 1800];
  - the published snapshot with its priority-ordered label.

  The text commands are GET_STATUS, RESET_SYSTEM, SET_TEMP and EMERGENCY_STOP. Each phase is a function on the `Furnace` value. The class `SimulatedDevice` holds the same state in fields, and its methods (`Step`, the commands) are proved to update the fields as those functions say.
- **`FornoLabGood`** (`firmware_good.dfy`): the good firmware's globals and its `loop()` pass: check, control, simulate, status line. The thermal values are integers, and the class `GoodFirmware` mirrors the globals.
- **`FornoLabBad`** (`firmware_bad.dfy`): the bad firmware:
  - the 96-character input buffer (an `array<char>`), filled character by character until `;`;
  - prefix dispatch of START, STOP, RST_ESTOP, SET_SP=, SET_LIMS=, MAN= and GET;
  - clamped PWM outputs;
  - the e-stop latch, the alarm classifier and the JSON telemetry line.
- **`SerialBackend`** (`arduino_device.dfy`): the back end of the serial mode:
  - received characters are framed into lines at `\n`;
  - each trimmed, non-blank line is decoded from `;`-separated `KEY=VALUE` tokens into the fourteen values `TryParseTelemetry` passes to `new Telemetry(…)`, kept as a record of their own;
  - the port opens and closes behind guards;
  - commands are written as `command + "\n"` in ASCII.
- **`SerialLink`** (`serial_link.dfy`): the two sides of the serial mode put together:
  - what the bad firmware does with the bytes `SendAsync` writes;
  - what `DataReceived` makes of the lines either firmware prints.
- **`Dashboard`** (`dashboard.dfy`): the dashboard's colour rules and guards:
  - from `charts.js`: the gauge bands, the state-label colours and the last-100-points trend window;
  - from `chart.js`: the temperature chart's marker colours and update guards.
- **Helper modules:**
  - `Text`: the .NET and JavaScript string primitives the code relies on (`Trim`, `Split`, `IndexOf`, `ToUpperInvariant`, `toLowerCase`, `includes`);
  - `Numbers`: `double.TryParse`, `int.TryParse`, `long.TryParse`, C's `atof` and `sscanf` conversions, and the Arduino `Serial.print(x, 1)`;
  - `DeviceTelemetry`: the eleven-field telemetry record;
  - `Wrappers`: `Option`.

Time (`DateTime.UtcNow`, `millis()`, `micros()`), the bytes `ReadExisting` returns and the plant temperature of the bad firmware are parameters of the operations that use them.

## Model

| member | source | states |
|---|---|---|
| SimulatedFurnace.SimulatedDevice.constructor | FORNO_INDUSTRIAL/api/Device/SimulatedDevice.cs:11-31 | A new simulator is at 1450 with set-point 1500, active, not interlocked, everything off, not running, with nothing published. |
| SimulatedFurnace.SimulatedDevice.StartAsync | FORNO_INDUSTRIAL/api/Device/SimulatedDevice.cs:36-51 | Starting leaves the simulator running, whether or not it was already. |
| SimulatedFurnace.SimulatedDevice.StopAsync | FORNO_INDUSTRIAL/api/Device/SimulatedDevice.cs:53-59 | Stopping leaves the simulator not running. |
| SimulatedFurnace.SimulatedDevice.VerificarTemperaturaCritica | FORNO_INDUSTRIAL/api/Device/SimulatedDevice.cs:109-149 | The field updates in place equal the critical-check function on the old state; the run flag and the publications are untouched. |
| SimulatedFurnace.SimulatedDevice.ControlarTemperatura | FORNO_INDUSTRIAL/api/Device/SimulatedDevice.cs:151-185 | The actuator fields become the control function of the old state; nothing else changes. |
| SimulatedFurnace.SimulatedDevice.SimularTemperatura | FORNO_INDUSTRIAL/api/Device/SimulatedDevice.cs:187-214 | The temperature field becomes the thermal function of the old state; nothing else changes. |
| SimulatedFurnace.SimulatedDevice.GerarTelemetria | FORNO_INDUSTRIAL/api/Device/SimulatedDevice.cs:244-290 | The last telemetry is the snapshot of the current fields, and that same snapshot is appended to what the event has published. |
| SimulatedFurnace.SimulatedDevice.Step | FORNO_INDUSTRIAL/api/Device/SimulatedDevice.cs:77-107 | One loop iteration applies check, control and thermal step in that order, then publishes the snapshot of the new state. |
| SimulatedFurnace.SimulatedDevice.ResetSystem | FORNO_INDUSTRIAL/api/Device/SimulatedDevice.cs:292-300 | Reset clears interlock and alarm, activates the system, restores 1450 and answers RESET_OK. |
| SimulatedFurnace.SimulatedDevice.SetTemperatureCommand | FORNO_INDUSTRIAL/api/Device/SimulatedDevice.cs:302-319 | The new state and the reply are those of the set-point function. |
| SimulatedFurnace.SimulatedDevice.EmergencyStopCommand | FORNO_INDUSTRIAL/api/Device/SimulatedDevice.cs:321-330 | Emergency stop engages the interlock, deactivates, turns the heater off and the fan and alarm on, and answers EMERGENCY_STOP_OK. |
| SimulatedFurnace.SimulatedDevice.SendAsync | FORNO_INDUSTRIAL/api/Device/SimulatedDevice.cs:61-75 | The dispatch updates the fields and answers exactly as the command function does. |
| SimulatedFurnace.Clamp | FORNO_INDUSTRIAL/api/Device/SimulatedDevice.cs:309 | `Math.Clamp` lands in its range, and a value already in range is left as it is. |
| SimulatedFurnace.CriticalCheckSpec | FORNO_INDUSTRIAL/api/Device/SimulatedDevice.cs:109-149 | After the check, the interlock is on iff it was on or the temperature reached 1750, and the temperature is above the set-point. Under interlock the alarm is on; otherwise the alarm is exactly temperature ≥ 1600. The temperature, set-point and actuators are kept. |
| SimulatedFurnace.CriticalEngages | FORNO_INDUSTRIAL/api/Device/SimulatedDevice.cs:112-128 | At 1750 or more, with the interlock off and the set-point below the temperature (as in every reachable state, the set-point being 1500), the interlock engages, the system stops and the alarm is on; at or below the set-point the release of lines 121-128 undoes it in the same check. |
| SimulatedFurnace.CriticalReleases | FORNO_INDUSTRIAL/api/Device/SimulatedDevice.cs:121-128 | Under interlock, a temperature at or below the set-point clears the interlock and reactivates the system; the alarm then reflects the 1600 threshold. |
| SimulatedFurnace.ControlSpec | FORNO_INDUSTRIAL/api/Device/SimulatedDevice.cs:151-185 | Heater and fan are never both on; the fan runs exactly under interlock, the heater exactly when active and not interlocked; nothing else changes. |
| SimulatedFurnace.ThermalBounds | FORNO_INDUSTRIAL/api/Device/SimulatedDevice.cs:209-210 | The new temperature always lies in [25, 1800], and only the temperature changes. |
| SimulatedFurnace.ThermalCases | FORNO_INDUSTRIAL/api/Device/SimulatedDevice.cs:192-206 | Heating adds 5; the fan alone removes 10 (8 plus the 2 of ambient loss); idle loses 2; heater and fan together lose 3. Each result is clamped to the limits. |
| SimulatedFurnace.LabelPriority | FORNO_INDUSTRIAL/api/Device/SimulatedDevice.cs:249-272 | Each label is published exactly under its condition, in the priority INTERRUPCAO CRITICA > ALARME - AQUECENDO > AQUECENDO > RESFRIANDO > INATIVO > MANTENDO. |
| SimulatedFurnace.InitialSafe | FORNO_INDUSTRIAL/api/Device/SimulatedDevice.cs:11-26 | The initial state satisfies the safety invariant: active iff not interlocked, interlock implies alarm, heater and fan exclusive, temperature and set-point in range. |
| SimulatedFurnace.CycleSafe | FORNO_INDUSTRIAL/api/Device/SimulatedDevice.cs:77-107 | A simulation cycle preserves the safety invariant. |
| SimulatedFurnace.CommandSafe | FORNO_INDUSTRIAL/api/Device/SimulatedDevice.cs:61-75 | Every command, reset and emergency stop included, preserves the safety invariant. |
| SimulatedFurnace.SnapshotConsistent | FORNO_INDUSTRIAL/api/Device/Telemetry.cs:7-19 | The snapshot of a safe state is a consistent telemetry record. |
| SimulatedFurnace.PublishedLabels | FORNO_INDUSTRIAL/api/Device/SimulatedDevice.cs:249-272 | After any cycle from a state where active means not interlocked, only INTERRUPCAO CRITICA, ALARME - AQUECENDO or AQUECENDO can be published. |
| SimulatedFurnace.CommandWithEquals | FORNO_INDUSTRIAL/api/Device/SimulatedDevice.cs:71 | Any text containing `=` (such as `SET_TEMP=1600`) is answered "OK" and changes nothing. |
| SimulatedFurnace.NoCommandName | FORNO_INDUSTRIAL/api/Device/SimulatedDevice.cs:69-72 | A text containing `=` is none of the four command names. |
| SimulatedFurnace.SetTempArmUnreachable | FORNO_INDUSTRIAL/api/Device/SimulatedDevice.cs:71 | A text that the SET_TEMP arm's name matches holds no `=`, so that arm's guard never holds. |
| SimulatedFurnace.CommandCaseInsensitive | FORNO_INDUSTRIAL/api/Device/SimulatedDevice.cs:63-74 | Two commands that read the same once trimmed and upper-cased do the same thing; GET_STATUS, RESET_SYSTEM and EMERGENCY_STOP, in any case and with any surrounding white space, each do what they name. |
| SimulatedFurnace.CommandReplies | FORNO_INDUSTRIAL/api/Device/SimulatedDevice.cs:61-75 | The reply is one of SIMULADOR_ATIVO, RESET_OK, EMERGENCY_STOP_OK or OK, never a set-point reply. The status query and OK leave the state alone, and OK is the answer exactly when the text names none of the three reachable commands. |
| SimulatedFurnace.SetTemperatureSpec | FORNO_INDUSTRIAL/api/Device/SimulatedDevice.cs:302-319 | SETPOINT_OK iff the text splits into exactly two parts on `=` and the second parses as a number; the set-point then becomes that number clamped into [1000, 1800]. Otherwise SETPOINT_ERROR leaves the state unchanged. |
| SimulatedFurnace.SetTemperatureDigits | FORNO_INDUSTRIAL/api/Device/SimulatedDevice.cs:306-309 | `SET_TEMP=<digits>` given to the handler itself sets the clamped value of the digits. |
| SimulatedFurnace.EmergencyAndReset | FORNO_INDUSTRIAL/api/Device/SimulatedDevice.cs:292-330 | Emergency stop sets interlock, inactive, heater off, fan on and alarm on, whatever the temperature. Reset clears interlock and alarm, activates and restores 1450; the set-point and actuators are kept. |
| SimulatedFurnace.HeatingRun | FORNO_INDUSTRIAL/api/Device/SimulatedDevice.cs:77-107 | From start-up, cycle k (k ≤ 60) has the furnace at 1450 + 5k, heating, with the alarm on from cycle 31. |
| SimulatedFurnace.CoolingRun | FORNO_INDUSTRIAL/api/Device/SimulatedDevice.cs:77-107 | Cycles 61 to 85 run under interlock with the fan, cooling by 10 per cycle from 1740 down to 1500. |
| SimulatedFurnace.InterlockStep | FORNO_INDUSTRIAL/api/Device/SimulatedDevice.cs:112-118 | The cycle that starts at 1750 engages the interlock and cools to 1740. |
| SimulatedFurnace.CoolingStep | FORNO_INDUSTRIAL/api/Device/SimulatedDevice.cs:151-210 | One cycle under interlock above the set-point cools by 10 and keeps the interlock. |
| SimulatedFurnace.ReleaseRun | FORNO_INDUSTRIAL/api/Device/SimulatedDevice.cs:121-128 | Cycle 86 sees 1500, releases and heats again, returning to the state of cycle 11. |
| SimulatedFurnace.Recurs | FORNO_INDUSTRIAL/api/Device/SimulatedDevice.cs:79-105 | A state that recurs after p steps recurs every p steps from then on. |
| SimulatedFurnace.Period75 | FORNO_INDUSTRIAL/api/Device/SimulatedDevice.cs:79-105 | From cycle 11 on, the run from start-up repeats every 75 cycles. |
| SimulatedFurnace.AlarmOneCycleLate | FORNO_INDUSTRIAL/api/Device/SimulatedDevice.cs:131-148 | The first snapshot at 1600 still shows the alarm off, because the check runs before the heating step; the next shows it on. |
| FornoLabGood.GoodFirmware.constructor | FORNO_INDUSTRIAL/firmware/FornoLab_PIO/src/good/FornoLab.cpp:22-50 | After setup the globals are at 1400, active, everything off, all pins LOW; no status line is printed and nothing is pending. |
| FornoLabGood.GoodFirmware.VerificarTemperaturaCritica | FORNO_INDUSTRIAL/firmware/FornoLab_PIO/src/good/FornoLab.cpp:53-94 | The globals updated in place equal the check function of the old globals. |
| FornoLabGood.GoodFirmware.ControlarTemperatura | FORNO_INDUSTRIAL/firmware/FornoLab_PIO/src/good/FornoLab.cpp:97-121 | The globals and pins updated in place equal the control function of the old globals. |
| FornoLabGood.GoodFirmware.SimularTemperatura | FORNO_INDUSTRIAL/firmware/FornoLab_PIO/src/good/FornoLab.cpp:124-152 | The temperature updated in place equals the thermal function of the old globals, and the messages of the heating, cooling and loss branches taken are appended to the text pending on the current line. |
| FornoLabGood.GoodFirmware.ExibirStatus | FORNO_INDUSTRIAL/firmware/FornoLab_PIO/src/good/FornoLab.cpp:155-184 | The line printed is the pending text followed by the status line of the globals; the globals are unchanged and nothing is left pending. |
| FornoLabGood.GoodFirmware.StatusText | FORNO_INDUSTRIAL/firmware/FornoLab_PIO/src/good/FornoLab.cpp:155-183 | The pieces printed, put together, are exactly the status line of the current globals. |
| FornoLabGood.GoodFirmware.Loop | FORNO_INDUSTRIAL/firmware/FornoLab_PIO/src/good/FornoLab.cpp:187-202 | One pass applies check, control and simulation in that order and prints one line: the simulation's messages, then the status line of the new globals. |
| FornoLabGood.CheckInterlock | FORNO_INDUSTRIAL/firmware/FornoLab_PIO/src/good/FornoLab.cpp:55-75 | The interlock is on after the check iff it was on or the temperature reached 1750, and the temperature is above the constant 1500. Release restores the active flag; engagement clears it. |
| FornoLabGood.CheckAlarm | FORNO_INDUSTRIAL/firmware/FornoLab_PIO/src/good/FornoLab.cpp:78-93 | Outside interlock the alarm flag is exactly temperature ≥ 1600. Under interlock the flag keeps its old value and only the alarm pin is driven HIGH. Temperature, actuators and their pins are kept. |
| FornoLabGood.CheckKeepsActive | FORNO_INDUSTRIAL/firmware/FornoLab_PIO/src/good/FornoLab.cpp:53-75 | The check preserves "active iff not interlocked". |
| FornoLabGood.ReleaseKeepsPin | FORNO_INDUSTRIAL/firmware/FornoLab_PIO/src/good/FornoLab.cpp:66-75 | On release the alarm flag is cleared but the alarm pin keeps its old level. |
| FornoLabGood.ControlSpec | FORNO_INDUSTRIAL/firmware/FornoLab_PIO/src/good/FornoLab.cpp:97-121 | Fan only under interlock, heater only when active, never both; the heater and fan pins mirror their flags; nothing else changes. |
| FornoLabGood.SimulateBounds | FORNO_INDUSTRIAL/firmware/FornoLab_PIO/src/good/FornoLab.cpp:145-151 | The temperature stays in [25, 1800] and only the temperature changes. |
| FornoLabGood.SimulateCases | FORNO_INDUSTRIAL/firmware/FornoLab_PIO/src/good/FornoLab.cpp:124-152 | Heating adds 5; the fan alone removes 9 (8 plus the literal 1 of ambient loss); idle loses 1; both together lose 3. Each result is clamped. |
| FornoLabGood.InitialReachable | FORNO_INDUSTRIAL/firmware/FornoLab_PIO/src/good/FornoLab.cpp:22-27 | The initial globals satisfy the pass invariant: active iff not interlocked, interlock implies alarm and alarm pin, pins mirror actuators, exclusive actuators, temperature in range. |
| FornoLabGood.PassReachable | FORNO_INDUSTRIAL/firmware/FornoLab_PIO/src/good/FornoLab.cpp:187-202 | Every loop pass preserves that invariant. |
| FornoLabGood.PhrasePriority | FORNO_INDUSTRIAL/firmware/FornoLab_PIO/src/good/FornoLab.cpp:162-170 | The status phrase follows interlock > heating > cooling > maintaining, each exactly under its condition. |
| FornoLabGood.StatusBannerIff | FORNO_INDUSTRIAL/firmware/FornoLab_PIO/src/good/FornoLab.cpp:172-181 | The line ends in `*** ALARME ***` iff 1600 ≤ temperature < 1750; otherwise it ends with the A: flag text. |
| FornoLabGood.SetpointText | FORNO_INDUSTRIAL/firmware/FornoLab_PIO/src/good/FornoLab.cpp:159 | The set-point prints as 1500. |
| FornoLabGood.StatusLineDigits | FORNO_INDUSTRIAL/firmware/FornoLab_PIO/src/good/FornoLab.cpp:155-184 | For any reachable temperature, the line shows its decimal digits followed by `.0`, and the set-point 1500. |
| FornoLabGood.StatusLineNoFields | FORNO_INDUSTRIAL/firmware/FornoLab_PIO/src/good/FornoLab.cpp:155-184 | No status line holds `=`, `;` or `\n`, and every one starts with `T`. |
| FornoLabGood.PassNarration | FORNO_INDUSTRIAL/firmware/FornoLab_PIO/src/good/FornoLab.cpp:124-143 | On every reachable state a pass prints the heating message, or under interlock the cooling message, matching the status phrase after it; the natural-loss message is never printed. |
| FornoLabGood.NarrationNoFields | FORNO_INDUSTRIAL/firmware/FornoLab_PIO/src/good/FornoLab.cpp:128-141 | The simulation's messages hold no `=`, `;` or `\n`, and start with `>`. |
| FornoLabGood.PassLineNoFields | FORNO_INDUSTRIAL/firmware/FornoLab_PIO/src/good/FornoLab.cpp:124-184 | The line a pass prints, messages and status together, holds no `=`, `;` or `\n`, and starts with `>` or `T`. |
| FornoLabGood.FirstTemperatureText | FORNO_INDUSTRIAL/firmware/FornoLab_PIO/src/good/FornoLab.cpp:157 | 1405.0 prints as `1405.0`. |
| FornoLabGood.FirstLine | FORNO_INDUSTRIAL/firmware/FornoLab_PIO/src/good/FornoLab.cpp:187-198 | The first line after start-up is the heating message followed by the status of 1405.0, on the same line. |
| FornoLabGood.HeatingRun | FORNO_INDUSTRIAL/firmware/FornoLab_PIO/src/good/FornoLab.cpp:187-202 | From 1400, pass k (k ≤ 70) reaches 1400 + 5k, heating, with the alarm on from pass 41. |
| FornoLabGood.CoolingRun | FORNO_INDUSTRIAL/firmware/FornoLab_PIO/src/good/FornoLab.cpp:187-202 | Passes 71 to 98 run under interlock, falling by 9 per pass (fan −8, ambient −1) from 1750 to 1498. |
| FornoLabGood.ReleaseRun | FORNO_INDUSTRIAL/firmware/FornoLab_PIO/src/good/FornoLab.cpp:66-93 | Pass 99 releases the interlock and heats again, with the alarm flag off while the alarm pin stays HIGH. |
| FornoLabBad.Constrain | FORNO_INDUSTRIAL/firmware/FornoLab_PIO/src/bad/FornoLab.cpp:20 | `constrain` gives a value in range: the value itself when in range, the nearer bound otherwise. |
| FornoLabBad.Kept | FORNO_INDUSTRIAL/firmware/FornoLab_PIO/src/bad/FornoLab.cpp:76 | The buffer keeps a prefix of what arrives, at most 95 characters, and all of it when it fits. |
| FornoLabBad.BadFirmware.constructor | FORNO_INDUSTRIAL/firmware/FornoLab_PIO/src/bad/FornoLab.cpp:8-67 | After setup the globals have their initial values, the buffer is empty and ACK; has been printed. |
| FornoLabBad.BadFirmware.IsrEstop | FORNO_INDUSTRIAL/firmware/FornoLab_PIO/src/bad/FornoLab.cpp:17 | The interrupt latches the e-stop flag and records its time. |
| FornoLabBad.BadFirmware.ApplyOutputs | FORNO_INDUSTRIAL/firmware/FornoLab_PIO/src/bad/FornoLab.cpp:19-22 | Both PWM values become the clamped arguments. |
| FornoLabBad.BadFirmware.AllOff | FORNO_INDUSTRIAL/firmware/FornoLab_PIO/src/bad/FornoLab.cpp:23 | Both outputs go to 0. |
| FornoLabBad.BadFirmware.ResetInput | FORNO_INDUSTRIAL/firmware/FornoLab_PIO/src/bad/FornoLab.cpp:45 | The buffer length is 0 and its first character is NUL. |
| FornoLabBad.BadFirmware.Sw | FORNO_INDUSTRIAL/firmware/FornoLab_PIO/src/bad/FornoLab.cpp:46 | The `strncmp` loop answers true exactly when the name is a prefix of the buffer's C string. |
| FornoLabBad.BadFirmware.SendTelemetry | FORNO_INDUSTRIAL/firmware/FornoLab_PIO/src/bad/FornoLab.cpp:25-41 | Exactly the telemetry line of the current globals is printed. |
| FornoLabBad.BadFirmware.StripTerminator | FORNO_INDUSTRIAL/firmware/FornoLab_PIO/src/bad/FornoLab.cpp:49 | The buffer's C string becomes the command text: one trailing `;` removed, cut at the first NUL. |
| FornoLabBad.BadFirmware.Argument | FORNO_INDUSTRIAL/firmware/FornoLab_PIO/src/bad/FornoLab.cpp:53-55 | `ibuf + k` is the command text from position k on. |
| FornoLabBad.BadFirmware.Recognize | FORNO_INDUSTRIAL/firmware/FornoLab_PIO/src/bad/FornoLab.cpp:50-57 | The chain of `sw` tests yields the command the parse function gives for the buffer's text. |
| FornoLabBad.BadFirmware.Run | FORNO_INDUSTRIAL/firmware/FornoLab_PIO/src/bad/FornoLab.cpp:50-57 | Running a recognised command updates the globals and prints the reply as the apply function says. |
| FornoLabBad.BadFirmware.RunPlain | FORNO_INDUSTRIAL/firmware/FornoLab_PIO/src/bad/FornoLab.cpp:50-57 | START, STOP, RST_ESTOP, GET and unknown text update the globals and reply as the apply function says. |
| FornoLabBad.BadFirmware.RunScanned | FORNO_INDUSTRIAL/firmware/FornoLab_PIO/src/bad/FornoLab.cpp:53-55 | The commands with an argument update the globals and reply as the apply function says. |
| FornoLabBad.BadFirmware.HandleCommand | FORNO_INDUSTRIAL/firmware/FornoLab_PIO/src/bad/FornoLab.cpp:48-58 | `handleCommand` updates the globals and prints its reply as the handle function does on the stored text. |
| FornoLabBad.BadFirmware.ReadChar | FORNO_INDUSTRIAL/firmware/FornoLab_PIO/src/bad/FornoLab.cpp:76-77 | Reading one character changes the buffer, globals and output as the receive function says. |
| FornoLabBad.BadFirmware.ReadInput | FORNO_INDUSTRIAL/firmware/FornoLab_PIO/src/bad/FornoLab.cpp:75-78 | The input loop over the available characters has the effect of the feed function. |
| FornoLabBad.BadFirmware.ServiceEstop | FORNO_INDUSTRIAL/firmware/FornoLab_PIO/src/bad/FornoLab.cpp:80-84 | The e-stop block updates the globals as the e-stop function says. |
| FornoLabBad.BadFirmware.UpdateMonitor | FORNO_INDUSTRIAL/firmware/FornoLab_PIO/src/bad/FornoLab.cpp:86-95 | The new temperature, its alarm class and the loop time are stored. |
| FornoLabBad.BadFirmware.Loop | FORNO_INDUSTRIAL/firmware/FornoLab_PIO/src/bad/FornoLab.cpp:69-96 | One `loop()` pass has the effect of the loop-pass function: input, e-stop block, plant, alarm, loop time. |
| FornoLabBad.PrintRecord | FORNO_INDUSTRIAL/firmware/FornoLab_PIO/src/bad/FornoLab.cpp:26-40 | The sequence of prints yields the JSON object of the fourteen members in order, closed by `}`. |
| FornoLabBad.CStrPrefix | FORNO_INDUSTRIAL/firmware/FornoLab_PIO/src/bad/FornoLab.cpp:46 | A C string is a NUL-free prefix of its buffer. |
| FornoLabBad.CStrMatch | FORNO_INDUSTRIAL/firmware/FornoLab_PIO/src/bad/FornoLab.cpp:46 | A NUL-free name that the buffer starts with is a prefix of the C string. |
| FornoLabBad.CStrMismatch | FORNO_INDUSTRIAL/firmware/FornoLab_PIO/src/bad/FornoLab.cpp:46 | A first differing character rules the name out as a prefix. |
| FornoLabBad.ParseStart | FORNO_INDUSTRIAL/firmware/FornoLab_PIO/src/bad/FornoLab.cpp:50 | The text is START iff it begins with START. |
| FornoLabBad.ParseStop | FORNO_INDUSTRIAL/firmware/FornoLab_PIO/src/bad/FornoLab.cpp:51 | The text is STOP iff it begins with STOP. |
| FornoLabBad.ParseResetEstop | FORNO_INDUSTRIAL/firmware/FornoLab_PIO/src/bad/FornoLab.cpp:52 | The text is RST_ESTOP iff it begins with RST_ESTOP. |
| FornoLabBad.ParseSetpoint | FORNO_INDUSTRIAL/firmware/FornoLab_PIO/src/bad/FornoLab.cpp:53 | The text is a set-point command iff it begins with SET_SP=, and the value is `atof` of the rest. |
| FornoLabBad.ParseSetLimits | FORNO_INDUSTRIAL/firmware/FornoLab_PIO/src/bad/FornoLab.cpp:54 | The text is a limits command iff it begins with SET_LIMS=, carrying the three-float scan of the rest. |
| FornoLabBad.ParseManual | FORNO_INDUSTRIAL/firmware/FornoLab_PIO/src/bad/FornoLab.cpp:55 | The text is a manual command iff it begins with MAN=, carrying the two-integer scan of the rest. |
| FornoLabBad.ParseGet | FORNO_INDUSTRIAL/firmware/FornoLab_PIO/src/bad/FornoLab.cpp:56 | The text is GET iff it begins with GET. |
| FornoLabBad.ParseUnknown | FORNO_INDUSTRIAL/firmware/FornoLab_PIO/src/bad/FornoLab.cpp:57 | The text is unknown iff it begins with none of the seven names. |
| FornoLabBad.OutputsClamped | FORNO_INDUSTRIAL/firmware/FornoLab_PIO/src/bad/FornoLab.cpp:19-23 | `applyOutputs` stores both values clamped into [0, 255], in-range values as given, and changes nothing else; `allOff` leaves both at 0. |
| FornoLabBad.OpenedAppend | FORNO_INDUSTRIAL/firmware/FornoLab_PIO/src/bad/FornoLab.cpp:27-39 | One more member extends the object text by a comma, the quoted key, a colon and the value. |
| FornoLabBad.ReceiveIdle | FORNO_INDUSTRIAL/firmware/FornoLab_PIO/src/bad/FornoLab.cpp:75-78 | Reading a character keeps the buffer at most 95 characters and free of `;`. A `;` empties the buffer and adds exactly one reply; any other character sends nothing and changes no global. |
| FornoLabBad.FeedIdle | FORNO_INDUSTRIAL/firmware/FornoLab_PIO/src/bad/FornoLab.cpp:75-78 | After any input the buffer holds at most 95 characters, the earlier output is kept, and exactly one reply is added per `;` received. |
| FornoLabBad.FeedStores | FORNO_INDUSTRIAL/firmware/FornoLab_PIO/src/bad/FornoLab.cpp:76 | Input without `;` only fills the buffer, dropping what does not fit. |
| FornoLabBad.StoredTerminator | FORNO_INDUSTRIAL/firmware/FornoLab_PIO/src/bad/FornoLab.cpp:49 | Once the `;` is stripped, the command text is what was stored before it. |
| FornoLabBad.FeedCommand | FORNO_INDUSTRIAL/firmware/FornoLab_PIO/src/bad/FornoLab.cpp:75-78 | A command and its `;`, into an empty buffer, is handled on its first 95 characters and leaves the buffer empty. |
| FornoLabBad.HandleKeeps | FORNO_INDUSTRIAL/firmware/FornoLab_PIO/src/bad/FornoLab.cpp:48-58 | No command touches the temperature, state, alarm or loop time. Only RST_ESTOP clears the e-stop flag. |
| FornoLabBad.HandleRunCommands | FORNO_INDUSTRIAL/firmware/FornoLab_PIO/src/bad/FornoLab.cpp:50-52 | START sets `running`; STOP clears it and zeroes both outputs; RST_ESTOP clears the e-stop flag and its latency but not `lastState`. Each answers ACK;. |
| FornoLabBad.HandleReplies | FORNO_INDUSTRIAL/firmware/FornoLab_PIO/src/bad/FornoLab.cpp:50-57 | Every command but GET answers ACK; or ERR;, and ERR; leaves the globals unchanged. |
| FornoLabBad.HandleSetLimits | FORNO_INDUSTRIAL/firmware/FornoLab_PIO/src/bad/FornoLab.cpp:54 | SET_LIMS= answers ACK; iff three floats scan, then sets the three limits to them; otherwise ERR; with nothing changed. |
| FornoLabBad.HandleManual | FORNO_INDUSTRIAL/firmware/FornoLab_PIO/src/bad/FornoLab.cpp:55 | MAN= answers ACK; iff two integers scan, then applies them as clamped outputs; otherwise ERR; with nothing changed. |
| FornoLabBad.SetpointWithoutNumber | FORNO_INDUSTRIAL/firmware/FornoLab_PIO/src/bad/FornoLab.cpp:53 | `SET_SP=abc` is acknowledged and sets the set-point to 0, since `atof` fails silently. |
| FornoLabBad.AlarmClasses | FORNO_INDUSTRIAL/firmware/FornoLab_PIO/src/bad/FornoLab.cpp:90-93 | The four classes are exclusive and exhaustive: CRIT iff T ≥ LCRIT; HIGH iff LMAX < T < LCRIT; LOW iff T < LMIN, T ≤ LMAX and T < LCRIT; NONE iff LMIN ≤ T ≤ LMAX and T < LCRIT. |
| FornoLabBad.InvertedLimits | FORNO_INDUSTRIAL/firmware/FornoLab_PIO/src/bad/FornoLab.cpp:90-93 | The order matters: with inverted limits (LMIN 200, LMAX 100) a reading of 150 is HIGH, not LOW. |
| FornoLabBad.FeedKeepsState | FORNO_INDUSTRIAL/firmware/FornoLab_PIO/src/bad/FornoLab.cpp:48-58 | No serial input changes `lastState`. |
| FornoLabBad.StateLatch | FORNO_INDUSTRIAL/firmware/FornoLab_PIO/src/bad/FornoLab.cpp:80-84 | After a pass the state is E_STOP iff it was already E_STOP or the e-stop flag is set after the input. Once E_STOP, it stays so, RST_ESTOP included. |
| FornoLabBad.EStopOutputs | FORNO_INDUSTRIAL/firmware/FornoLab_PIO/src/bad/FornoLab.cpp:80-84 | With the e-stop flag set, a pass ends with both outputs at 0; otherwise the outputs are the ones the commands left. |
| FornoLabBad.ElapsedAcrossWrap | FORNO_INDUSTRIAL/firmware/FornoLab_PIO/src/bad/FornoLab.cpp:95 | The unsigned subtraction of two `micros()` readings gives the elapsed time even across the 32-bit wrap. |
| FornoLabBad.TelemetryRecord | FORNO_INDUSTRIAL/firmware/FornoLab_PIO/src/bad/FornoLab.cpp:25-41 | The telemetry keys are t, sp, limMin, limMax, limCrit, mode, state, heater, fan, alarm, eStop, dtEstopUs, loopUs, tsMs in that order; mode is always "BAD" and eStop is `true`/`false`. |
| FornoLabBad.OpenedBrace | FORNO_INDUSTRIAL/firmware/FornoLab_PIO/src/bad/FornoLab.cpp:26 | The telemetry line starts with `{`. |
| SerialBackend.Ascii | FORNO_INDUSTRIAL/api/Device/ArduinoDevice.cs:39 | ASCII encoding gives one byte per UTF-16 code unit, every byte below 128; a text without characters above U+FFFF gives one byte per character, the character itself below 128 and `?` otherwise. |
| SerialBackend.AsciiConcat | FORNO_INDUSTRIAL/api/Device/ArduinoDevice.cs:39 | The bytes of a concatenation are the concatenation of the bytes. |
| SerialBackend.AsciiChar | FORNO_INDUSTRIAL/api/Device/ArduinoDevice.cs:39 | One character becomes its own code below 128, one `?` up to U+FFFF, and two `?` (a surrogate pair) above. |
| SerialBackend.ArduinoDevice.constructor | FORNO_INDUSTRIAL/api/Device/ArduinoDevice.cs:7-20 | A new device has a closed port, an empty receive buffer and no telemetry. |
| SerialBackend.ArduinoDevice.StartAsync | FORNO_INDUSTRIAL/api/Device/ArduinoDevice.cs:24-28 | The port is opened only if it was closed. |
| SerialBackend.ArduinoDevice.StopAsync | FORNO_INDUSTRIAL/api/Device/ArduinoDevice.cs:30-34 | The port is closed only if it was open. |
| SerialBackend.ArduinoDevice.SendAsync | FORNO_INDUSTRIAL/api/Device/ArduinoDevice.cs:36-41 | The port is opened if need be, the encoded command is written, and the answer is always "OK". |
| SerialBackend.ArduinoDevice.OnData | FORNO_INDUSTRIAL/api/Device/ArduinoDevice.cs:43-57 | The buffer becomes the unframed rest of old buffer plus chunk, holding no `\n`. The last telemetry is what the framed lines give, in order. |
| SerialBackend.ArduinoDevice.TakeLine | FORNO_INDUSTRIAL/api/Device/ArduinoDevice.cs:49-52 | One loop iteration returns the text before the first `\n` and removes it and the `\n` from the buffer; that text is the next line of what was received, and the rest is framed as before. |
| SerialBackend.ArduinoDevice.DecodeLine | FORNO_INDUSTRIAL/api/Device/ArduinoDevice.cs:51-53 | The line, trimmed, replaces the last record with its decoding when not blank and leaves it alone otherwise, so the record is the one the lines so far leave. |
| SerialBackend.ArduinoDevice.TryParseTelemetry | FORNO_INDUSTRIAL/api/Device/ArduinoDevice.cs:59-87 | The loop over the tokens leaves as last telemetry exactly the decode of the line. |
| SerialBackend.FrameStep | FORNO_INDUSTRIAL/api/Device/ArduinoDevice.cs:49-52 | With a `\n` in the buffer, the first line is the text before it, and framing continues after it. |
| SerialBackend.RestClean | FORNO_INDUSTRIAL/api/Device/ArduinoDevice.cs:49 | What framing leaves in the buffer holds no `\n`. |
| SerialBackend.FrameRoundTrip | FORNO_INDUSTRIAL/api/Device/ArduinoDevice.cs:47-54 | Old buffer plus chunk is exactly the framed lines, each followed by `\n`, then the kept trailing fragment. |
| SerialBackend.LinesClean | FORNO_INDUSTRIAL/api/Device/ArduinoDevice.cs:49-51 | No framed line holds `\n`. |
| SerialBackend.FrameUnique | FORNO_INDUSTRIAL/api/Device/ArduinoDevice.cs:47-54 | Lines without `\n`, framed and followed by a `\n`-free fragment, are framed back into exactly those lines and that fragment. |
| SerialBackend.FrameConcat | FORNO_INDUSTRIAL/api/Device/ArduinoDevice.cs:47-54 | Framing a + b gives the lines of a, then the lines of a's rest followed by b. |
| SerialBackend.ReceivedConcat | FORNO_INDUSTRIAL/api/Device/ArduinoDevice.cs:53 | Processing two runs of lines one after the other is processing them together. |
| SerialBackend.ChunksInvisible | FORNO_INDUSTRIAL/api/Device/ArduinoDevice.cs:47-54 | Text delivered as two chunks leaves the same buffer and the same last telemetry as the same text in one chunk. |
| SerialBackend.ReceivedStep | FORNO_INDUSTRIAL/api/Device/ArduinoDevice.cs:51-53 | A line replaces the telemetry with the decode of its trimmed text iff that text is not empty; otherwise it changes nothing. |
| SerialBackend.BlankLines | FORNO_INDUSTRIAL/api/Device/ArduinoDevice.cs:53 | Lines that trim to nothing leave the last telemetry as it was. |
| SerialBackend.LastLineWins | FORNO_INDUSTRIAL/api/Device/ArduinoDevice.cs:53 | The last telemetry is the decode of the last non-blank line, whatever came before. |
| SerialBackend.SetFields | FORNO_INDUSTRIAL/api/Device/ArduinoDevice.cs:69-84 | A key/value pair sets the field of its key, read as that key's type: a failed number is 0, and ESTOP is true iff the value is "1". Every other field and the timestamp are kept. |
| SerialBackend.SetByKey | FORNO_INDUSTRIAL/api/Device/ArduinoDevice.cs:69-84 | For every known key, the field after a pair is that key's reading of the value if the pair's key matches, and is unchanged otherwise. |
| SerialBackend.AssignByKey | FORNO_INDUSTRIAL/api/Device/ArduinoDevice.cs:66-84 | A token that does not split into exactly two parts on `=` changes nothing; otherwise it sets only the field of its key. |
| SerialBackend.DecodeByKey | FORNO_INDUSTRIAL/api/Device/ArduinoDevice.cs:61-85 | Each field of the decoded record is read from the last token carrying its key, or keeps its default when no token does. Repeated keys: the last wins. |
| SerialBackend.EStopIffOne | FORNO_INDUSTRIAL/api/Device/ArduinoDevice.cs:81 | The decoded e-stop is true iff the last ESTOP value is exactly "1". |
| SerialBackend.DecodeWithoutPairs | FORNO_INDUSTRIAL/api/Device/ArduinoDevice.cs:64-85 | Tokens without `=` leave the record as it was. |
| SerialBackend.LineWithoutPairs | FORNO_INDUSTRIAL/api/Device/ArduinoDevice.cs:62-63 | A line without `=` decodes to the defaults: zeros, empty texts, false. |
| SerialBackend.PortGuards | FORNO_INDUSTRIAL/api/Device/ArduinoDevice.cs:26-32 | Opening leaves the port open and closing leaves it closed. Both are idempotent, and each is a no-op when the port is already in that state. |
| SerialBackend.SendWrites | FORNO_INDUSTRIAL/api/Device/ArduinoDevice.cs:38-39 | Each send writes exactly one encoded command after the port calls so far. |
| SerialBackend.EncodeAscii | FORNO_INDUSTRIAL/api/Device/ArduinoDevice.cs:39 | An ASCII command is written as its own bytes followed by the single byte 10. |
| SerialLink.Wire | FORNO_INDUSTRIAL/firmware/FornoLab_PIO/src/bad/FornoLab.cpp:76 | `Serial.read()` returns one character per byte, with the byte's value. |
| SerialLink.WireEncode | FORNO_INDUSTRIAL/api/Device/ArduinoDevice.cs:39 | An ASCII command arrives at the firmware as the command followed by `\n`. |
| SerialLink.FeedConcat | FORNO_INDUSTRIAL/firmware/FornoLab_PIO/src/bad/FornoLab.cpp:75-78 | Reading two pieces one after the other is reading them together. |
| SerialLink.FeedTerminated | FORNO_INDUSTRIAL/firmware/FornoLab_PIO/src/bad/FornoLab.cpp:75-78 | A command and its `;` run on the stored text followed by the command, cut to 95 characters and at a NUL, and leave the buffer empty. |
| SerialLink.FirstCommand | FORNO_INDUSTRIAL/firmware/FornoLab_PIO/src/bad/FornoLab.cpp:75-78 | `command;\n` into an empty buffer runs the command and leaves `\n` in the buffer. |
| SerialLink.StaleNewline | FORNO_INDUSTRIAL/firmware/FornoLab_PIO/src/bad/FornoLab.cpp:48-58 | With that `\n` stored, every later `command;\n` is answered ERR;, changes nothing and leaves `\n` again. |
| SerialLink.SendWithoutTerminator | FORNO_INDUSTRIAL/api/Device/ArduinoDevice.cs:36-41 | A command sent without `;` is only stored by the bad firmware: nothing runs and nothing is answered. |
| SerialLink.SecondCommandRejected | FORNO_INDUSTRIAL/api/Device/ArduinoDevice.cs:39 | Of two commands sent with a trailing `;`, the first runs and the second is answered ERR; and changes nothing. |
| SerialLink.NoPairsLine | FORNO_INDUSTRIAL/api/Device/ArduinoDevice.cs:51-53 | A non-blank line without `=` replaces the back end's record with the defaults. |
| SerialLink.PrintedLine | FORNO_INDUSTRIAL/api/Device/ArduinoDevice.cs:47-52 | A text without `\n` that `println` ends with `\r\n` is framed as exactly one line, the text with its `\r`. |
| SerialLink.PrintedNoPairs | FORNO_INDUSTRIAL/api/Device/ArduinoDevice.cs:47-63 | Such a printed text, non-blank and without `=`, replaces the back end's record with the defaults. |
| SerialLink.BadRepliesRead | FORNO_INDUSTRIAL/api/Device/ArduinoDevice.cs:53 | The bad firmware's ACK;/ERR; replies reach the back end as a record of defaults, as lines and as printed with `\r\n`. |
| SerialLink.TelemetryAvoids | FORNO_INDUSTRIAL/firmware/FornoLab_PIO/src/bad/FornoLab.cpp:25-41 | The bad firmware's JSON line holds no `=` (no `\n`) when its state and alarm texts hold none. |
| SerialLink.BadTelemetryRead | FORNO_INDUSTRIAL/api/Device/ArduinoDevice.cs:61-86 | The bad firmware's JSON telemetry reaches the back end as a record of defaults: no field is read. Printed with `\r\n`, it is one such line when the state and alarm texts hold no `\n`. |
| SerialLink.GoodStatusRead | FORNO_INDUSTRIAL/api/Device/ArduinoDevice.cs:61-86 | Every line the good firmware prints in a pass, the simulation's messages and the status line, also reaches the back end as a record of defaults, with or without its `\r\n`. |
| Dashboard.GaugeBands | FORNO_INDUSTRIAL/ui/wwwroot/js/charts.js:135-140 | Each gauge colour is shown exactly on its band: ≥ 1750, [1600, 1750), [1400, 1600), below 1400. |
| Dashboard.GaugeMonotone | FORNO_INDUSTRIAL/ui/wwwroot/js/charts.js:136-139 | A hotter reading never shows a less severe gauge colour. |
| Dashboard.StatePriority | FORNO_INDUSTRIAL/ui/wwwroot/js/charts.js:382-390 | Each state colour is shown exactly under its condition: critica/emergency > alarme/warning > aquecendo/heating > resfriando/cooling > mantendo/normal, else grey. |
| Dashboard.StateColorIgnoresCase | FORNO_INDUSTRIAL/ui/wwwroot/js/charts.js:383 | A label and its lower-cased form have the same colour. |
| Dashboard.AbsentChar | FORNO_INDUSTRIAL/ui/wwwroot/js/charts.js:384-389 | A word holding a character that the label lacks is not found in it. |
| Dashboard.CriticalLabelColor | FORNO_INDUSTRIAL/ui/wwwroot/js/charts.js:384 | INTERRUPCAO CRITICA is red. |
| Dashboard.AlarmHeatingLabelColor | FORNO_INDUSTRIAL/ui/wwwroot/js/charts.js:385 | ALARME - AQUECENDO is orange, not green. |
| Dashboard.IdleLabelColor | FORNO_INDUSTRIAL/ui/wwwroot/js/charts.js:389 | INATIVO is the grey default. |
| Dashboard.SimulatorLabelColors | FORNO_INDUSTRIAL/ui/wwwroot/js/charts.js:382-390 | Each label the simulator can publish gets its colour: red, orange, green, blue, grey, green. |
| Dashboard.SafeLabelsNotGrey | FORNO_INDUSTRIAL/ui/wwwroot/js/charts.js:389 | No label of a furnace in a safe state is grey. |
| Dashboard.TrendWindow | FORNO_INDUSTRIAL/ui/wwwroot/js/charts.js:287-294 | Past 100 points, the x-range runs from the first to the last of exactly the last 100. With increasing times it covers them, and every earlier point lies at or before its start. |
| Dashboard.TrendAppends | FORNO_INDUSTRIAL/ui/wwwroot/js/charts.js:274-294 | An update appends one point to every trace, keeps the earlier points and the traces' equal lengths, and sets the range only past 100 points. |
| Dashboard.TrendMissing | FORNO_INDUSTRIAL/ui/wwwroot/js/charts.js:256-266 | With no chart element, no run of updates ever creates a chart or plots a point: `initTrendChart`'s `Plotly.newPlot` has no element to draw in. |
| Dashboard.TrendGrows | FORNO_INDUSTRIAL/ui/wwwroot/js/charts.js:274-279 | On an existing chart, a run of updates appends the points' times to the time axis, one per point, in order. |
| Dashboard.Colors | FORNO_INDUSTRIAL/ui/wwwroot/js/chart.js:44-48 | One marker colour per reading, entry i depending only on reading i. |
| Dashboard.MarkerBands | FORNO_INDUSTRIAL/ui/wwwroot/js/chart.js:45-47 | The marker is red iff ≥ 1800, orange iff in [1700, 1800), green iff below 1700. |
| Dashboard.ColorsConcat | FORNO_INDUSTRIAL/ui/wwwroot/js/chart.js:44-48 | Colouring two runs of readings one after the other gives the colours of the whole. |
| Dashboard.ThresholdsDiffer | FORNO_INDUSTRIAL/ui/wwwroot/js/chart.js:45-46 | The gauge and the chart disagree at 1760 (critical against alarm), and every critical marker is a critical gauge. |
| Dashboard.UpdateGuard | FORNO_INDUSTRIAL/ui/wwwroot/js/chart.js:41-57 | Missing or empty timestamps change nothing. Otherwise the plot shows the timestamps against the readings, with one banded marker per reading. |
| Dashboard.AddGuard | FORNO_INDUSTRIAL/ui/wwwroot/js/chart.js:59-74 | Before a chart is initialised nothing happens. After, the point is appended, earlier points are kept, the range is the last five minutes and the markers are unchanged. |
| Dashboard.AddedPointsUncoloured | FORNO_INDUSTRIAL/ui/wwwroot/js/chart.js:62-68 | The colour `addTemperaturePoint` computes is never used: added points get no marker. |
| Dashboard.NothingBeforeInit | FORNO_INDUSTRIAL/ui/wwwroot/js/chart.js:60 | No point is added before `initTemperatureChart`. |
| Text.TrimEmptyIffBlank | FORNO_INDUSTRIAL/api/Device/ArduinoDevice.cs:51-53 | A line trims to nothing iff it is all white space. |
| Text.TrimKeepsNonWhite | FORNO_INDUSTRIAL/api/Device/ArduinoDevice.cs:51 | Trimming neither adds nor removes any non-white character. |
| Text.IndexOf | FORNO_INDUSTRIAL/api/Device/ArduinoDevice.cs:49 | The result is −1 iff the character is absent; otherwise it is the position of its first occurrence. |
| Text.Split | FORNO_INDUSTRIAL/api/Device/ArduinoDevice.cs:66 | Splitting gives at least one piece, and no piece holds the separator. |
| Text.JoinSplit | FORNO_INDUSTRIAL/api/Device/ArduinoDevice.cs:61 | Splitting and joining on the same separator gives back the text. |
| Text.SplitJoin | FORNO_INDUSTRIAL/api/Device/ArduinoDevice.cs:66 | Joining separator-free pieces and splitting again gives back the pieces. |
| Text.NonEmpty | FORNO_INDUSTRIAL/api/Device/ArduinoDevice.cs:61 | RemoveEmptyEntries keeps only non-empty pieces of the input, and every non-empty piece is among those kept; order and multiplicity are stated by `Text.NonEmptySingle` and `Text.NonEmptyConcat`. |
| Text.NonEmptySingle | FORNO_INDUSTRIAL/api/Device/ArduinoDevice.cs:61 | A single piece is kept exactly when it is not empty. |
| Text.NonEmptyConcat | FORNO_INDUSTRIAL/api/Device/ArduinoDevice.cs:61 | The pieces kept from two runs of pieces are those kept from the first followed by those kept from the second: order and multiplicity are kept. |
| Text.ToUpperInvariant | FORNO_INDUSTRIAL/api/Device/SimulatedDevice.cs:63 | Upper-casing maps each character on its own and keeps the length; `a`–`z` become their capitals and `=` stays `=` (weaker than .NET, see "Left out"). |
| Text.LowerIdempotent | FORNO_INDUSTRIAL/ui/wwwroot/js/charts.js:383 | Lower-casing twice is lower-casing once. |
| Text.ContainsAt | FORNO_INDUSTRIAL/ui/wwwroot/js/charts.js:384-388 | `includes` holds iff the word occurs at some position. |
| Numbers.NatToString | FORNO_INDUSTRIAL/firmware/FornoLab_PIO/src/bad/FornoLab.cpp:37-39 | The decimal text of a number is a non-empty digit string whose value is that number. |
| Numbers.TryParseInt32 | FORNO_INDUSTRIAL/api/Device/ArduinoDevice.cs:78-79 | `int.TryParse` succeeds only with a value in the 32-bit range. |
| Numbers.ParseRealAt | FORNO_INDUSTRIAL/api/Device/ArduinoDevice.cs:71-75 | After a number, `double.TryParse` succeeds exactly when only white space and then only NUL characters follow. |
| Numbers.ParseIntegerAt | FORNO_INDUSTRIAL/api/Device/ArduinoDevice.cs:78-83 | After an integer, `int.TryParse`/`long.TryParse` succeed exactly when only white space and then only NUL characters follow and the value is in range. |
| Numbers.ParseDigitsTrailing | FORNO_INDUSTRIAL/api/Device/ArduinoDevice.cs:71-83 | Digits followed by white space and NUL characters parse to their value with all three parsers, in range for the integer ones. |
| Numbers.ParseDoubleTrailingNul | FORNO_INDUSTRIAL/api/Device/ArduinoDevice.cs:71 | `double.TryParse("12\0")` gives 12. |
| Numbers.ParseIntTrailingNul | FORNO_INDUSTRIAL/api/Device/ArduinoDevice.cs:78 | `int.TryParse("12\0\0")` gives 12. |
| Numbers.ParseSpaceAfterNul | FORNO_INDUSTRIAL/api/Device/ArduinoDevice.cs:78 | `int.TryParse("12\0 ")` fails: white space is not accepted after a NUL. |
| Numbers.TryParseInt64 | FORNO_INDUSTRIAL/api/Device/ArduinoDevice.cs:82-83 | `long.TryParse` succeeds only with a value in the 64-bit range. |
| Numbers.ParseNatToString | FORNO_INDUSTRIAL/api/Device/ArduinoDevice.cs:71-83 | A number printed in decimal is parsed back to itself by `double.TryParse` and `atof`, and by `int.TryParse`/`long.TryParse` when in range. |
| Numbers.ScanIntPairDigits | FORNO_INDUSTRIAL/firmware/FornoLab_PIO/src/bad/FornoLab.cpp:55 | `%d,%d` on two digit strings separated by a comma reads their values. |
| Numbers.PrintWholeNumber | FORNO_INDUSTRIAL/firmware/FornoLab_PIO/src/bad/FornoLab.cpp:26-30 | `print(x, 1)` of a whole number is its digits followed by `.0`. |
| Numbers.AtofPrintFloat1 | FORNO_INDUSTRIAL/firmware/FornoLab_PIO/src/bad/FornoLab.cpp:26-30 | `atof` of `print(x, 1)` is the magnitude plus 0.05 truncated to one decimal, with x's sign. |
| Numbers.PrintFloat1Accuracy | FORNO_INDUSTRIAL/firmware/FornoLab_PIO/src/bad/FornoLab.cpp:26-30 | The printed value read back lies within 0.05 of x. |
| Numbers.TruncationBounds | FORNO_INDUSTRIAL/firmware/FornoLab_PIO/src/bad/FornoLab.cpp:26 | Truncating to one decimal loses less than 0.1. |

## Left out

- `SimulationLoop`'s `Task.Run`, the cancellation token and the one-second `Task.Delay` are left out: the model runs the loop as a sequence of `Step` calls. Commands run atomically between steps. Commands racing the loop are not modelled.
- `StartAsync` in the simulator only sets the run flag. Starting the background task is not modelled; `Step` requires the flag.
- `StopAsync` in the simulator only clears the run flag; `_cts.Cancel()` is not modelled.
- `ExibirStatusSimples` and all `Console.WriteLine` output of the simulator are console narration, so they are not modelled.
- `SimulatedFurnace.SimulatedDevice.SetTemperatureCommand`: the `catch` that turns an exception into SETPOINT_ERROR is not modelled, since `Split` and `TryParse` do not throw.
- `Numbers.TryParseDouble`: the source (ArduinoDevice.cs:71-75, SimulatedDevice.cs:307) passes no culture, so it parses with the current one; under pt-BR, for example, `.` is a group separator. The model fixes the culture to the invariant one and keeps only its decimal syntax:
  - leading white space, sign, digits, point, exponent, then trailing white space and trailing NUL characters, as `int.TryParse` and `long.TryParse` also accept them;
  - no thousands separators, no `Infinity`/`NaN` words;
  - no overflow to infinity;
  - no rounding to a 64-bit double. Values are exact reals.
- `Numbers.Atof` and `Numbers.ScanFloatField`: exact reals, with no rounding to a 32-bit float. Hexadecimal floats and `inf`/`nan` are not recognised.
- `Numbers.ScanIntField`: a value outside the `int` range is kept exact instead of wrapping, since `sscanf %d` overflow is undefined behaviour in C.
- `Numbers.PrintFloat1`: `Print::printFloat` is modelled on exact reals. The binary rounding of the float before printing is not modelled.
- `IDevice` is not modelled as an interface, since the model has no traits. `SimulatedDevice` and `ArduinoDevice` are separate classes with the same operation names.
- `SerialBackend.ArduinoDevice.TryParseTelemetry` passes fourteen values to `new Telemetry(…)` (ArduinoDevice.cs:86), but the only `Telemetry` in its namespace (Telemetry.cs:7-19) has eleven positional fields, so that call does not compile as given. The model's `SerialTelemetry` record is read off the argument list, in its order, with no mapping onto the eleven-field record.
- The `TelemetryReceived` event of the simulator is the `published` sequence of `SimulatedDevice`. `ArduinoDevice` has no such event, and neither has its model.
- `DateTime.UtcNow`, `millis()` and `micros()` are parameters of the operations that use them.
- `ArduinoDevice.OnData`: the `catch { }` around the loop is not modelled, since nothing in the modelled loop fails. The `DataReceived` callback threading is not modelled.
- `Encoding.ASCII.GetBytes` is modelled on the model's strings, which are made of Unicode scalar values. A character below 128 becomes its own byte. Any other character up to U+FFFF becomes one `?`. A character above U+FFFF, which .NET holds as a surrogate pair, becomes two `?`. A .NET string can also hold an unpaired surrogate, which a Dafny string cannot, so that case is not modelled.
- Serial port configuration (baud rate, port name) and `Dispose` are left out; the port is a value recording `Open`, `Close` and `Write` calls.
- In the good firmware, `setup()`'s `Serial.begin` and `pinMode` calls and the one-second `delay` of `loop()` are left out.
- In the good firmware, the banner `setup()` prints and the interlock, release and alarm messages `verificar_temperatura_critica` prints on lines of their own are not modelled. The model records each status line, with the simulation's `>>>` messages printed in front of it on the same line.
- `FornoLabGood.GoodFirmware.VerificarTemperaturaCritica` leaves the pending text alone, where its `println` calls would end a pending line. This differs from the source only if text were pending when a pass starts, and after the constructor and every `Loop` nothing is.
- In the bad firmware, `updatePlant` and its 100 ms tick are left out, because they are a float ODE. The new temperature of a pass is the `plantT` parameter of `Loop`.
- `analogWrite` and `digitalWrite` calls in the bad firmware are left out; the PWM globals are modelled.
- The 50 ms `delay` of the bad firmware is left out. `isrEstop` is a method that may be called between passes, not during one.
- In the bad firmware, the `running` flag is set and cleared as in the source. Nothing else reads it, in the model or in the source.
- `lastState` and `lastAlarm` are `char[10]` in the source. The model stores their texts, which all fit in 10 bytes.
- `Text.ToUpperInvariant` maps only `a`–`z`, U+0131 (ı) and U+017F (ſ) to capitals and leaves every other character, `é` included, as it is, where .NET's invariant culture upper-cases every cased letter. For the command dispatch this is exact: the names compared are ASCII, and the only characters whose upper case is an ASCII letter are the ASCII letters and those two.
- `getStateColor`'s `toLowerCase` is modelled on ASCII letters only. No simulator or firmware label holds another letter.
- The dashboard's Plotly and DOM work (the chart layouts, `initTemperatureGauge`, `initTrendChart`, `initStatusPieChart`, resize and purge) is left out; a plot is the data its traces hold.
- `updateTrendChart` on an element whose Plotly `data` is missing or empty (charts.js:268-272), which logs and skips the update, is not modelled: the model takes every existing chart element to be an initialised plot. The `catch` around `extendTraces` (charts.js:281-284) is not modelled either.
- `Dashboard.UpdateTrend`: with no chart element, `initTrendChart`'s `Plotly.newPlot` throws on the missing id; the model has no exceptions, so that call leaves the chart missing and drops the point, and the error reaching the caller is not modelled.
- `updateTemperatureChart` with `temperatures` missing while timestamps are present is not modelled (JavaScript would throw).
- The SignalR hubs, the HTTP services, the configuration models and `Program.cs` are forwarding and bootstrap code, so they are not modelled.
