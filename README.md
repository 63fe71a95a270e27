# SHT3x driver model

A Dafny model of the MahdaSystem SHT3x driver, a small C library that talks
to a Sensirion SHT3x temperature and humidity sensor over I2C. The library
never touches the bus itself. The application fills a handler with
platform capabilities (init, deinit, send, receive, delay and CRC check),
and the driver calls through them.

The model covers both variants of the driver:

- `src/SHT3x.c`, the current driver. Its handler remembers the bus address,
  the measurement mode (single shot, periodic or ART), the speed and the
  repeatability. `ReadSample` issues the command family of the stored mode.
- `SHT3x.c`, the older stateless driver. Its only read is
  `SHT3x_ReadSample_SingleShot`, which takes the repeatability as an
  argument and picks one of two command tables with the build option
  `SHT3X_CLOCK_STRETCHING`.

Modules:

| module | file | contents |
|---|---|---|
| `Types` | types.dfy | `uint8_t`, `int8_t` and `uint16_t` as newtypes, `Option`, the result codes, and big-endian word assembly |
| `Platform` | platform.dfy | the capability layer: a `Bus` class with replies scripted in advance, a ghost log of every call, and a byte-level model of what a receive stores |
| `Protocol` | protocol.dfy | addresses, mode parameter codes, and every two-byte command word, including both single-shot tables and the 5×3 periodic table |
| `Conversion` | conversion.dfy | the `Sample` class, the conversion to °C, °F and %RH, and the decoding tail shared by both reads (raw counts, two CRC checks, conversion) |
| `Retry` | retry.dfy | the single-shot polling loop (at most 20 receives, 1 ms apart) and recursive functions that give its calls, receive count, buffer and outcome |
| `Control` | control.dfy | status read, status clear and heater, which both variants implement with identical code |
| `Sht3x` | sht3x.dfy | the current driver's `Handler` class |
| `Sht3xLegacy` | sht3x_legacy.dfy | the older driver's `LegacyHandler` class, and the corrected read described under Findings |
| `Scenarios` | scenarios.dfy | end-to-end client runs on scripted buses, each with its proved outcome |

How the platform is modelled:

- A `Bus` is scripted: the n-th send returns `sendReply(n)`, and the n-th
  receive returns `receiveReply(n).code`.
- A receive stores `receiveReply(n).written` into the caller's buffer,
  truncated to the requested length, whatever its return code. A failing
  transfer can therefore leave a partial frame behind, and the model says
  what the driver then does with it.
- Uninitialised C buffers (the older read's frame and the status buffer)
  start with arbitrary bytes. A ghost out-parameter `stale` names them.

## Model

| member | source | states |
|---|---|---|
| `Types.Be16` | src/SHT3x.c:386-387 | the word assembled from two bytes has `hi` as its high byte and `lo` as its low byte |
| `Types.ShiftOrIsMulAdd` | src/SHT3x.c:386 | `(hi << 8) \| lo` on two bytes widened to 16 bits equals `hi * 256 + lo`, which is what `Be16` computes |
| `Platform.Overlay` | src/include/SHT3x.h:103-115 | a buffer after a receive keeps its length |
| `Platform.OverlayBytes` | src/include/SHT3x.h:103-115 | byte by byte, the first min(len, stored) bytes come from the reply and the rest are what the buffer held |
| `Platform.Bus.constructor` | src/include/SHT3x.h:95-134 | a fresh bus has the given scripts, an empty log and zero counters |
| `Platform.Bus.Send` | src/include/SHT3x.h:103-115 | a send logs its address and bytes and returns the next scripted send code |
| `Platform.Bus.Receive` | src/include/SHT3x.h:103-115 | a receive logs its address and length, returns the next scripted code, and stores the scripted bytes whatever the code |
| `Platform.Bus.Delay` | src/include/SHT3x.h:127-134 | a delay logs its duration and succeeds |
| `Platform.Bus.Init` | src/include/SHT3x.h:95-101 | the platform init logs its call and returns its scripted code |
| `Platform.Bus.DeInit` | src/include/SHT3x.h:95-101 | the platform deinit logs its call and returns its scripted code |
| `Protocol.WriteFrame` | src/SHT3x.c:489 | `address << 1` is the write frame of a 7-bit address: halving it gives back the address, and its R/W bit is 0 |
| `Protocol.SingleShotCommand` | src/SHT3x.c:51-58 | a single-shot command exists exactly for Low, Medium and High, and its MSB is 0x2C with clock stretching and 0x24 without |
| `Protocol.SingleShotWords` | src/SHT3x.c:51-58 | the six single-shot words of the two tables, 0x2416 to 0x2C06 |
| `Protocol.PeriodicMsb` | src/SHT3x.c:210-278 | the MSB lookup `ComandPeriodicMSB[Speed]`: in 0x20..0x27, 0x20 + speed for the four slower speeds and 0x27 exactly for 10 mps |
| `Protocol.PeriodicLsb` | src/SHT3x.c:216-279 | the LSB lookup `ComandPeriodicLSB[Repeatability]` after the speed's switch: its range identifies the repeatability, 0x29..0x2F for Low, 0x20..0x26 for Medium, 0x30..0x37 for High |
| `Protocol.PeriodicCommand` | src/SHT3x.c:278-279 | the periodic command for a speed and repeatability; every such word lies in 0x2020..0x2737, and `PeriodicWords` gives each one |
| `Protocol.PeriodicWords` | src/SHT3x.c:63-82 | all fifteen words of the periodic table, by speed and repeatability |
| `Protocol.PeriodicTableInjective` | src/SHT3x.c:201-279 | each periodic command starts with its speed's MSB, and distinct (speed, repeatability) pairs send distinct words |
| `Protocol.PeriodicDistinctFromOthers` | src/SHT3x.c:51-122 | no periodic command equals a single-shot command or any fixed command |
| `Conversion.Celsius` | src/SHT3x.c:139-140 | every raw count converts to a temperature in [-45, 130] °C |
| `Conversion.Fahrenheit` | src/SHT3x.c:139-141 | every raw count converts to a temperature in [-49, 266] °F |
| `Conversion.HumidityPercent` | src/SHT3x.c:137 | every raw count converts to a humidity in [0, 100] %RH |
| `Conversion.ScaleEndPoints` | src/SHT3x.c:137-141 | raw 0 and raw 65535 reach the ends of all three scales |
| `Conversion.FahrenheitOfCelsius` | src/SHT3x.c:139-141 | the two temperature formulas agree: F = C × 9/5 + 32 |
| `Conversion.ConversionsIncreasing` | src/SHT3x.c:137-141 | all three conversions are strictly increasing in the raw count |
| `Conversion.Sample.constructor` | example/ESP-IDF/basic/main/main.c:46 | a sample declared `= {0}` has all fields zero |
| `Conversion.ConvSample` | src/SHT3x.c:132-142 | the derived fields are the three conversions of the raw counts, and nothing else changes |
| `Conversion.TempWord` | src/SHT3x.c:386 | the raw temperature count has frame byte 0 as its high byte and byte 1 as its low byte |
| `Conversion.HumWord` | src/SHT3x.c:387 | the raw humidity count has frame byte 3 as its high byte and byte 4 as its low byte |
| `Conversion.FrameCheck` | src/SHT3x.c:389-393 | a frame is Ok exactly when the CRC capability accepts both the temperature word and the humidity word; otherwise it is CrcError |
| `Conversion.RejectingCrcRejectsFrames` | src/SHT3x.c:389-393 | a CRC capability that rejects every word makes every frame a CRC error |
| `Conversion.AcceptingCrcAcceptsFrames` | src/SHT3x.c:389-393 | a CRC capability that accepts every word accepts every frame |
| `Conversion.Stored` | src/SHT3x.c:386-397 | the state after decoding a frame, used by both sample reads: raw counts written, verdict from `FrameCheck`, and the derived fields converted on Ok and kept otherwise |
| `Conversion.StoreSample` | src/SHT3x.c:386-397 | both raw counts are written whatever the verdict; the derived fields change only on Ok; the humidity word is checked only after the temperature word passes |
| `Retry.Attempts` | src/SHT3x.c:359-365 | a poll makes at most `budget` receives, and at least one when it has budget |
| `Retry.PollBuffer` | src/SHT3x.c:359-365 | the polled buffer keeps the frame length |
| `Retry.PollLog` | src/SHT3x.c:359-365 | the platform calls of a poll: a receive per attempt, each failed receive followed by a 1 ms delay; `PollOutcome` gives its length |
| `Retry.PollSucceeds` | src/SHT3x.c:359-362 | whether the loop left by its `break`, that is some receive within the budget returned 0; `PollSucceedsIff` and `PollOutcome` characterise it |
| `Retry.FailedPollsShape` | src/SHT3x.c:359-365 | k failed attempts log 2k calls: each receive is followed by exactly one 1 ms delay |
| `Retry.PollStopsAtFirstSuccess` | src/SHT3x.c:359-365 | after k failures and then a success, the poll stops with k + 1 receives and no delay after the success |
| `Retry.PollExhausted` | src/SHT3x.c:359-365 | when every attempt fails the poll uses its whole budget, each receive followed by a delay |
| `Retry.FirstSuccess` | src/SHT3x.c:359-365 | unless every attempt fails, there is a first successful attempt within the budget |
| `Retry.PollSucceedsIff` | src/SHT3x.c:359-365 | a poll succeeds exactly when some attempt within the budget returns 0 |
| `Retry.PollOutcome` | src/SHT3x.c:359-365 | a successful poll's last receive is the one that returned 0 and it logs 2n - 1 calls for n receives; a failed poll uses its whole budget and logs 2 calls per receive |
| `Retry.PollBufferAfterSuccess` | src/SHT3x.c:359-365 | a success that stores a whole frame fixes the buffer to that frame, whatever earlier failures stored |
| `Retry.SilentFailuresKeepBuffer` | src/SHT3x.c:359-365 | failures that store nothing leave the buffer as it was |
| `Retry.PollStep` | src/SHT3x.c:359-365 | one attempt of the loop: a success ends the poll, and a failure adds a delay and continues with one attempt less |
| `Retry.Poll` | src/SHT3x.c:359-365 | the loop makes exactly the calls, receive count and buffer that `PollLog`, `Attempts` and `PollBuffer` give, and reports whether some receive returned 0 |
| `Control.StatusReadDone` | src/SHT3x.c:509-528 | the state after a status read, used by both variants: the calls made, the receive count, and the result and status word for each outcome of the send and the receive |
| `Control.ReadStatus` | src/SHT3x.c:509-528 | the status read sends 0xF32D and then receives three bytes; a failed send or receive gives Fail; otherwise the big-endian status word is returned, with CrcError when its CRC byte is rejected |
| `Control.StatusFromFullReply` | src/SHT3x.c:520-523 | a reply that stores all three bytes decides the whole status buffer |
| `Control.CommandSent` | src/SHT3x.c:538-549 | the state after sending one fixed command, used by the mode setters, status clear and heater of both variants: one logged send, no receive, and Ok exactly when the send returned 0 |
| `Control.ClearStatus` | src/SHT3x.c:538-549 | one send of 0x3041; Ok exactly when it succeeds |
| `Control.HeaterCommand` | src/SHT3x.c:568-577 | any nonzero heater value selects 0x306D and zero selects 0x3066 |
| `Control.SetHeater` | src/SHT3x.c:563-583 | one send of the heater command; Ok exactly when it succeeds |
| `Sht3x.CheckCrc` | src/SHT3x.c:144-150 | the default CRC capability accepts every word |
| `Sht3x.DefaultCrcAcceptsAll` | src/SHT3x.c:433-434 | with the default CRC capability no frame is a CRC error |
| `Sht3x.ResolveAddress` | src/SHT3x.c:484-497 | 0, 0x44 and 0x88 select address A; 1, 0x45 and 0x8A select address B; any other value keeps the current address |
| `Sht3x.ResolveIdempotent` | src/SHT3x.c:484-497 | selecting twice with the same value is the same as selecting once |
| `Sht3x.ResolveCurrentIsNoOp` | src/SHT3x.c:484-497 | selecting the address already held changes nothing |
| `Sht3x.ResolveEquivalentEncodings` | src/SHT3x.c:484-497 | the pin value, the 7-bit address and its write frame select the same address |
| `Sht3x.SilentSensorReadFails` | src/SHT3x.c:332-368 | when every attempt of a poll fails silently, the poll makes one receive and one delay per attempt of its budget and leaves both CRC bytes of the zeroed buffer at 0, the condition for Fail |
| `Sht3x.Handler.constructor` | example/ESP-IDF/basic/main/main.c:45 | a handler declared `= {0}` has address 0, single-shot mode, Low and 0.5 mps, with the given capability slots |
| `Sht3x.Handler.SetModeSingleShot` | src/SHT3x.c:171-186 | the stop-periodic command is sent; mode and repeatability are stored only when the send succeeds, and the repeatability is not validated |
| `Sht3x.Handler.SetModePeriodic` | src/SHT3x.c:201-289 | an unknown speed gives InvalidParam with no bus traffic; otherwise the tabulated command is sent, and mode, speed and repeatability are stored only on success |
| `Sht3x.Handler.SetModeArt` | src/SHT3x.c:299-313 | 0x2B32 is sent, and the mode becomes ART only on success |
| `Sht3x.Handler.ReadSample` | src/SHT3x.c:328-398 | single shot: invalid repeatability gives InvalidParam, a failed send gives Fail, and otherwise the poll runs and both CRC bytes zero gives Fail. Periodic and ART: a fetch, one receive, NACK gives NoData, any other failure gives Fail. The frame is then decoded as `StoreSample` states |
| `Sht3x.Handler.Init` | src/SHT3x.c:421-452 | the address is resolved first; missing send, receive or delay gives InvalidParam with no bus call; a missing CRC capability gets the default; a failing platform init gives Fail; then single-shot Low, soft reset and a 2 ms delay after a successful reset |
| `Sht3x.Handler.DeInit` | src/SHT3x.c:461-470 | the platform deinit is called only when bound, and its failure gives Fail |
| `Sht3x.Handler.SetAddressI2C` | src/SHT3x.c:484-497 | the address becomes `ResolveAddress` of the selector, and the result is always Ok |
| `Sht3x.Handler.ReadStatus` | src/SHT3x.c:509-528 | as `Control.ReadStatus`, on the handler's address and CRC capability |
| `Sht3x.Handler.ClearStatus` | src/SHT3x.c:538-549 | as `Control.ClearStatus`, on the handler's address |
| `Sht3x.Handler.SetHeater` | src/SHT3x.c:563-583 | as `Control.SetHeater`, on the handler's address |
| `Sht3xLegacy.LegacyAddress` | SHT3x.c:292-301 | 0 selects address A and every other value selects address B |
| `Sht3xLegacy.AddressVariantsAgreeOnPins` | SHT3x.c:292-301 | on the pin values 0 and 1 both variants select the same address |
| `Sht3xLegacy.AddressVariantsDiffer` | SHT3x.c:295-298 | the older variant maps the literal address 0x44 and unknown selectors to address B, where the current one gives A and keeps the current address |
| `Sht3xLegacy.LegacyHandler.constructor` | SHT3x.h:60-77 | a zeroed handler over fully bound capabilities |
| `Sht3xLegacy.LegacyHandler.ReadSampleSingleShot` | SHT3x.c:163-239 | a repeatability other than 0, 1 or 2 gives InvalidParam with no bus traffic; the non-stretching command is sent; a failed send gives Fail; otherwise the poll runs and its buffer is decoded whatever the poll's outcome; NoData never occurs |
| `Sht3xLegacy.LegacyHandler.ReadSampleSingleShotChecked` | SHT3x.c:156-161 | as above, except that a poll in which no receive returned 0 gives Fail and leaves the sample untouched |
| `Sht3xLegacy.LegacyHandler.Init` | SHT3x.c:256-263 | the address becomes A, then the platform init is called unconditionally, and its failure gives Fail |
| `Sht3xLegacy.LegacyHandler.DeInit` | SHT3x.c:272-278 | the platform deinit is called unconditionally, and its failure gives Fail |
| `Sht3xLegacy.LegacyHandler.SetAddressI2C` | SHT3x.c:292-301 | the address becomes `LegacyAddress` of the selector, and the result is always Ok |
| `Sht3xLegacy.LegacyHandler.ReadStatus` | SHT3x.c:313-332 | as `Control.ReadStatus`, on the handler's address and CRC capability |
| `Sht3xLegacy.LegacyHandler.ClearStatus` | SHT3x.c:342-353 | as `Control.ClearStatus` |
| `Sht3xLegacy.LegacyHandler.SetHeater` | SHT3x.c:367-387 | as `Control.SetHeater` |
| `Scenarios.PeriodicRead` | src/SHT3x.c:370-397 | Init on pin 0, periodic mode at 1 mps and High, then a read of the frame `[0x66, 0x2E, 0xFF, 0x7D, 0x13, 0xFF]`: all three report Ok, the raw counts are 26158 and 32019, and they convert to between 24.85 and 24.86 °C and between 48.85 and 48.86 %RH |
| `Scenarios.SilentSensor` | src/SHT3x.c:359-368 | a sensor that never answers: the single-shot read makes twenty receives and reports Fail, and the sample is untouched |
| `Scenarios.NackedFetch` | src/SHT3x.c:379-381 | in ART mode a NACKed fetch reports NoData after one receive |
| `Scenarios.InitWithoutSend` | src/SHT3x.c:426-431 | Init without a send capability resolves the address, then reports InvalidParam with no transfer |
| `Scenarios.RejectingCrc` | src/SHT3x.c:386-393 | a rejecting CRC capability gives CrcError from both the sample read and the status read, yet the raw counts and the status word are still written |
| `Scenarios.LegacyDeadBusReadsOk` | SHT3x.c:219-238 | the older read on a sensor that never answers, with a CRC capability that accepts every word, reports Ok |
| `Scenarios.LegacyDeadBusCheckedFails` | SHT3x.c:156-161 | the corrected read in the same situation reports Fail and leaves the sample untouched |

## Left out

- Floating point: the conversions are computed over the reals, so `float` rounding and the `double`-to-`float` narrowing at src/SHT3x.c:137-141 are not modelled.
- The CRC-8 algorithm: the CRC check is a capability the application supplies. The platform files (SHT3x_platform.c, port/STM32-HAL) that implement it, together with the bus and timer glue, are not part of this model. The scenarios use the always-accepting default, an always-rejecting check, or the datasheet's 0xBEEF/0x92 example as plain bytes.
- Time: a delay is only logged with its duration. Its return value is ignored, as the driver ignores it.
- Capability slots: the current handler records which slots are bound as flags, and every bound slot acts on one scripted `Bus`. Calling an unbound slot is a null-pointer call in C, so the methods that call a slot without checking it require that slot to be bound. `Init` checks its slots and models that check.
- `Sht3x.Handler.SetModePeriodic`: with a valid speed, a repeatability outside 0..2 indexes past the three-entry LSB array, which is undefined behaviour in C. The model requires a valid repeatability whenever the speed is valid, and does not say what such a call sends.
- `Sht3x.Handler.ReadSample`, `Sht3xLegacy.LegacyHandler.ReadSampleSingleShot`: the poll's bound is the handler field `pollAttempts`, which every constructor sets to `MaxAttempts` (20), not the literal 20 the C loops write, so that the verifier does not unfold the recursive poll functions twenty levels deep. The loop counter's `uint8_t` width does not matter at that bound.
- Concurrency and reentrancy: the driver has none of its own, and none is modelled.
- The example applications and `SHT3x_Platform_Init` are callers, not part of the driver, and are not modelled.
- Where the code and its own documentation differ, the model follows the code, in two places:
  - `SHT3x_SetModeSingleShot` lists `SHT3x_INVALID_PARAM` among its results (src/SHT3x.c:169) but never returns it: it does not validate its repeatability (src/SHT3x.c:171-186), and an invalid value is only refused by the next `ReadSample`.
  - The comment on `SHT3x_SetAddressI2C` (src/SHT3x.c:476-479) names only 0 and 1 as selectors. The code also accepts the 7-bit addresses and their write frames, and keeps the address it had for any other value (src/SHT3x.c:487-494); `Sht3x.ResolveAddress` models the code.

## Findings

| source | as written | input that shows it | evidently intended | confidence | as-written member | corrected member |
|---|---|---|---|---|---|---|
| SHT3x.c:219-238 | The older single-shot read ignores the outcome of its 20-attempt poll. It decodes and CRC-checks the uninitialised six-byte buffer, and the read can report SHT3x_OK with no data received. | Every receive returns -1 and stores nothing, and the CRC capability accepts the stale bytes; the header allows one that always returns 0 (SHT3x.h:72-73). | SHT3x_FAIL, "Failed to send or receive data" (SHT3x.c:159). The current driver narrows this case with its zeroed buffer and its zero-CRC-bytes check (src/SHT3x.c:332, 367-368). | not executed | `Sht3xLegacy.LegacyHandler.ReadSampleSingleShot`, `Scenarios.LegacyDeadBusReadsOk` | `Sht3xLegacy.LegacyHandler.ReadSampleSingleShotChecked`, `Scenarios.LegacyDeadBusCheckedFails` |
