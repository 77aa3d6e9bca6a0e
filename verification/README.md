# Verified model of the SBJ Arduino firmware core

This project is a Dafny model of the small pieces of the SBJ firmware that the train-station, lighting, display and audio subsystems build on. It covers:

- The periodic-task abstraction `SBJTask`.
- The LED-matrix bitmap and its frame animator.
- The RFID record and its card detector.
- The BLE UUID and property-id string builders.
- The VEML7700 auto-ranging state machine.
- The I2C and SPI singleton bus configurations.
- The RIFF/WAVE and BMP decoders.
- The train-dock classifier.

Each header becomes one Dafny module. The model takes the form of the source. Pure expressions are functions. Step-by-step code is methods with loops and invariants. Objects whose fields the code updates are classes with `modifies` frames. Each method is proved against a specification function, and the promised properties are proved as lemmas about those functions.

## Modules

- `Common` (`common.dfy`) holds the shared vocabulary:
  - `Option`.
  - The fixed-width integer subsets (`u8`, `u16`, `u32`, `i32`) and explicit modular wrap-around.
  - Little-endian byte assembly.
  - Hex digits.
  - C strings as the prefix before the first NUL.
- `SbjTask` (`sbj_task.dfy`) models `SBJTask.h`:
  - `TimingTraits` and `msToTicks`, with the iteration check as a predicate on the timing.
  - The three callback bindings and `bindEntry`.
  - The FreeRTOS back-end as the class `EspTask`: `begin`/`begun`, and the entry routine `espEntry`/`runTimedLoop` as a method that emits a trace of `Call`, `Delay(t)`, `Yield` and `Delete` events.
  - The cooperative back-end as the class `SchedTask`, with `taskMemWrapper`.
  - The `loop<Behavior, Param>` helper.
- `LedMatrix` (`matrix_value.dfy`) models `MatrixR4Value.h`:
  - The 96-pixel bitmap in three MSB-first 32-bit words.
  - `getIndex`, `flipX`, `flipY`, `getBit` and `setBit`.
  - `update`, with its flip and invert paths and its changed flag.
- `LedMatrixDisplay` (`matrix_display.dfy`) models `MatrixR4Display.h`. It is the frame-stepping state machine over `_frameIndex`, `_frameCount`, `_animating`, `_showing` and the animation task's enabled flag. The frames are an input.
- `Rfid` (`rfid.dfy`) models `RFID.h`: the record, its 19-byte `encode` and `encodedSize`, plus a decoder that inverts `encode`.
- `RfidDetector` (`rfid_detector.dfy`) models `RFIDDetector.h`. It covers cooldown, failure counting with reset, and re-init after inactivity. The MFRC522 answers are inputs.
- `BleUuid` (`ble_uuid.dfy`) models `makeUuidWithService`. This fills the 8-4-4-4-12 layout of section 3 of RFC 4122 from up to twelve name bytes.
- `IdbtCharacteristic` (`idbt_characteristic.dfy`) models `writeIndex`, `makeUuidWithProperty` and `adjustPermissions`.
- `VemlAutoRange` (`veml_auto_range.dfy`) models the gain and integration-time index stepping of `Veml7700AutoRange.h`. It also models the index part of `read`, with the raw readings as an input sequence, and the name tables.
- `I2cHardware` (`i2c_hardware.dfy`) and `SpiHardware` (`spi_hardware.dfy`) model the singleton bus `State`s: `init`/`overrideDefaults`, `valid`, `begin` and `reportError`.
- `AudioPlayer` (`audio_player.dfy`) models the parts of `SbjAudioPlayerEsp32S3.h` that do the decoding:
  - `copyPath_`, `rd16_`, `rd32_` and the `parseWav_` chunk walker.
  - The format gate and the mono-to-stereo loop of `playFileOnce_`.
  - The frame chunking of `writeSilenceMs_`.
  - The `startTask` guard.
- `St7789Display` (`st7789_display.dfy`) models the decoding in `drawBMP`:
  - `rgb565`, `read16` and `read32`.
  - The header checks and the padded row stride.
  - Bottom-up and top-down row addressing.
  - Chunking into 80 pixels.
- `DockSensor` (`train_dock_sensor.dfy`) models `TrainDockSensor.h`: the three-band classification and the change notification.

## Modelling conventions

- Pointers are addresses (`Addr = nat`), and 0 stands for `nullptr`. Function pointers and objects the code only passes on are addresses too.
- Hardware answers are parameters:
  - The bytes of an SD file.
  - The MFRC522 answers (card present, read ok, uid).
  - The VEML7700 raw readings.
  - The clock value `now`.
  - The handle a FreeRTOS task creation returns.
- Effects on the outside world are recorded as sequences in the model's state or results:
  - Bytes written to I2S.
  - BLE characteristic writes.
  - LED frames loaded.
  - Task creations.
  - Error reports.
  - The entry routine's event trace.
- A task that runs `FOREVER` never returns. Its entry method takes a `rounds` bound and returns the prefix of the infinite trace that covers that many call-and-wait turns.
- Unsigned C arithmetic is written out with its modulus, wherever the source's results depend on wrap-around:
  - `uint32_t` tick and time arithmetic, including `msToTicks` as the entry routine uses it.
  - File positions in `drawBMP`.
  - The RFID timestamp.
  - The `parseWav_` seek. `AudioPlayer.WalkAsWritten` keeps the wrap; the playback path uses the exact target (see the notes below).
- FreeRTOS and ArduinoBLE constants come from those libraries' own headers, which are not part of this model:
  - The tick rate `configTICK_RATE_HZ` is a parameter between 1 and 1000 Hz.
  - `portTICK_PERIOD_MS` is `1000 / configTICK_RATE_HZ`.
  - `BLERead` is 0x02, `BLEWriteWithoutResponse` is 0x04 and `BLENotify` is 0x10.
- A short read from the SD file reads as 0 in `rd16_`/`rd32_`, which is how the code treats the bytes it did not get. `read16`/`read32` in `ST7789Display.h` read a missing byte as 0xFF (`File::read()` returns -1). A seek beyond the end of the file is taken to succeed, and every later read there comes up short.

## Notes on the code

- `begin()` discards the result of `xTaskCreatePinnedToCore` and sets `_begun` whenever an entry is bound (shared/PinIO/SBJTask.h:163-178). A failed creation therefore still leaves `_begun` set, and a later `begin()` does not retry. `SbjTask.EspTask.Begin` does the same: it returns early only when already begun or when no entry is bound.
- `MatrixR4Display`'s constructor initialises `_current(invert)` (shared/display/MatrixR4Display.h:24). `MatrixR4Value` declares only a constructor with no arguments (shared/display/MatrixR4Value.h:20-23). The model therefore starts `_current` all-off, as that constructor does.
- `parseWav_` seeks with `uint32_t` position arithmetic, which wraps. Only `AudioPlayer.WalkAsWritten` keeps that wrap; it is the walker the Findings row uses. `AudioPlayer.ParseWav`, `AudioPlayer.PlayOutcome`, `AudioPlayer.SbjAudioPlayer.PlayFileOnce` and `AudioPlayer.SbjAudioPlayer.ServeNext` use the exact seek target. `AudioPlayer.WalkAsWrittenAgrees` shows that both walkers give the same result whenever no seek target reaches 2^32.

## Model

| member | source | states |
|---|---|---|
| SbjTask.MsToTicks | shared/PinIO/SBJTask.h:68-72 | 0 ms is 0 ticks; otherwise the result t is the ceiling: t >= 1, t * portTICK_PERIOD_MS >= ms and (t - 1) * portTICK_PERIOD_MS < ms |
| SbjTask.MsToTicksAgrees | shared/PinIO/SBJTask.h:68-72 | the uint32_t expression as written equals the ceiling whenever ms + period - 1 does not wrap |
| SbjTask.MsToTicksAsWrittenWraps | shared/PinIO/SBJTask.h:70-71 | with a 10 ms tick, 0xFFFFFFFF ms gives 0 ticks as written instead of 429496730 |
| SbjTask.Loop | shared/PinIO/SBJTask.h:41-59 | on FreeRTOS: a yield, a delay of Param ticks (at least 1), or a delay of pdMS_TO_TICKS(Param, at least 1); otherwise one scheduler pass |
| SbjTask.LoopDelayTicksNeverZero | shared/PinIO/SBJTask.h:48 | the tick delay is never zero |
| SbjTask.Bind | shared/PinIO/SBJTask.h:213-218 | bindEntry(a, f) stores f as fn0, a as arg and the entry routine for the timing and invoker |
| SbjTask.MemberBindingAsWrittenNeverCalls | shared/PinIO/SBJTask.h:127-128 | as written, a member-method task with an object fails Invoker::init, so its method is never called |
| SbjTask.MemberBindingCalls | shared/PinIO/SBJTask.h:154-155 | with the object bound as arg, init succeeds exactly when the object is non-null |
| SbjTask.Wait | shared/PinIO/SBJTask.h:269-277 | the wait is a yield for 0 ticks and a delay otherwise, never a call or a delete |
| SbjTask.Rounds | shared/PinIO/SBJTask.h:267-271 | n turns of the FOREVER loop are 2n events |
| SbjTask.CountAppend | shared/PinIO/SBJTask.h:255-281 | event counts add up over concatenated traces |
| SbjTask.RoundsShape | shared/PinIO/SBJTask.h:266-271 | n turns of the FOREVER loop hold n calls and n waits, alternating call then wait, and no delete |
| SbjTask.CallsShape | shared/PinIO/SBJTask.h:272-280 | a finite count k gives k calls and k - 1 waits, alternating, the last event a call |
| SbjTask.EntryTraceShape | shared/PinIO/SBJTask.h:248-281 | a failed init gives only the delete; otherwise the first event is the start wait over msToTicks as computed in uint32_t (yield for 0 ticks, else delay); FOREVER makes one call per round and never deletes; a count k gives exactly k calls, the last event before the single delete being a call |
| SbjTask.EntryTraceAlternates | shared/PinIO/SBJTask.h:266-280 | after the start wait, calls and waits of the interval's uint32_t ticks alternate, up to the delete of a finite task |
| SbjTask.EntryTraceWaitsCeiling | shared/PinIO/SBJTask.h:68-75 | whenever neither msToTicks addition wraps, the routine waits exactly the ceiling of the start delay and of the interval |
| SbjTask.WrappedIntervalYields | shared/PinIO/SBJTask.h:68-75 | with a 10 ms tick, a two-call task with a 0xFFFFFFFF ms interval yields between its calls, where the ceiling would delay 429496730 ticks |
| SbjTask.EspTask.FromFunction | shared/PinIO/SBJTask.h:85-105 | not begun, no handle, name, stack, priority value and core stored, and the function bound as fn0 with the RuntimeFn0 entry |
| SbjTask.EspTask.FromMember | shared/PinIO/SBJTask.h:110-132 | the same, with the binding as written: bindEntry(nullptr, obj) |
| SbjTask.EspTask.FromDescriptor | shared/PinIO/SBJTask.h:137-159 | the same, with the object bound as arg: bindEntry(obj, nullptr) |
| SbjTask.EspTask.BindEntry | shared/PinIO/SBJTask.h:213-218 | assigns fn0, arg and entry and nothing else |
| SbjTask.EspTask.Begin | shared/PinIO/SBJTask.h:163-179 | once begun, or with no entry bound, nothing changes; otherwise exactly one task creation is requested (name defaulting to "SBJTask") and begun is set whatever the creation result |
| SbjTask.EspEntry | shared/PinIO/SBJTask.h:247-252 | the events of the entry routine are EntryTrace over the uint32_t tick values: the timed loop, then the delete |
| SbjTask.RunTimedLoop | shared/PinIO/SBJTask.h:254-281 | a null self or failed init does nothing; otherwise the start wait and then the FOREVER rounds or the counted calls, with startDelayTicks and intervalTicks computed as the source does |
| SbjTask.LoopForever | shared/PinIO/SBJTask.h:266-271 | after r turns the trace is extended by r call-then-wait rounds |
| SbjTask.LoopCounted | shared/PinIO/SBJTask.h:272-280 | the counted loop adds k calls with a wait between consecutive calls and none after the last |
| SbjTask.SchedTask.constructor | shared/PinIO/SBJTask.h:222-235 | the TaskScheduler task starts disabled with the interval, iteration count and callback; it is delayed only for a non-zero start delay and carries the object pointer |
| SbjTask.SchedTask.Begin | shared/PinIO/SBJTask.h:163-178 | once begun nothing changes; otherwise the scheduler task is enabled and begun set |
| SbjTask.TaskMemWrapper | shared/PinIO/SBJTask.h:305-310 | the member method runs only when there is a current task whose object pointer is non-null, and then on that object |
| SbjTask.NewSchedTaskFromFunction | shared/PinIO/SBJTask.h:85-98 | the cooperative task calls the plain function, carries no object, keeps the interval and iteration count, and is delayed by startDelayMs exactly when that is non-zero |
| SbjTask.NewSchedTaskFromMember | shared/PinIO/SBJTask.h:110-151 | the cooperative task calls taskMemWrapper, carries the object, keeps the interval and iteration count, and is delayed by startDelayMs exactly when that is non-zero |
| LedMatrix.GetIndexBijective | shared/display/MatrixR4Value.h:59-62 | getIndex maps the 8 x 12 grid into 0..95 without collisions |
| LedMatrix.GetIndexOnto | shared/display/MatrixR4Value.h:59-62 | every index 0..95 is getIndex of a grid cell, so the flip loops write all 96 bits |
| LedMatrix.FlipsStayOnGrid | shared/display/MatrixR4Value.h:64-72 | flipY and flipX keep a cell on the grid and undo themselves |
| LedMatrix.WithBitSame | shared/display/MatrixR4Value.h:81-86 | after setting a bit of a word with the MSB-first mask, that bit reads back the value written |
| LedMatrix.WithBitOther | shared/display/MatrixR4Value.h:81-86 | setting one bit of a word leaves every other bit |
| LedMatrix.OffsetInjective | shared/display/MatrixR4Value.h:77-84 | distinct positions in a word have distinct masks |
| LedMatrix.WordDeterminedByBits | shared/display/MatrixR4Value.h:74-79 | a word is determined by its 32 getBit answers |
| LedMatrix.GetBitAfterSetBit | shared/display/MatrixR4Value.h:74-86 | after setBit(f, i, v), getBit(f, i) == v and every other index keeps its bit |
| LedMatrix.FrameDeterminedByBits | shared/display/MatrixR4Value.h:74-79 | a Value is determined by its 96 getBit answers |
| LedMatrix.ComplementFlipsEveryBit | shared/display/MatrixR4Value.h:33 | ~ on the three words inverts every one of the 96 pixels |
| LedMatrix.ShowsIsUnique | shared/display/MatrixR4Value.h:37-49 | only one Value has every pixel equal to the flipped (and inverted) input pixel, so the bits left uninitialised in newValue do not matter |
| LedMatrix.UnflippedShortcut | shared/display/MatrixR4Value.h:31-34 | the no-flip shortcut (input, or its word-wise complement) is the pixel-wise transformation with no flips |
| LedMatrix.SetBit | shared/display/MatrixR4Value.h:81-86 | setBit writes the bit at word index / 32, offset 31 - index % 32, in place |
| LedMatrix.Transform | shared/display/MatrixR4Value.h:37-49 | the nested loops give a frame whose pixel (y, x) is input pixel (flipY ? 7 - y : y, flipX ? 11 - x : x), XOR inverting |
| LedMatrix.CopyPixel | shared/display/MatrixR4Value.h:41-47 | one inner-loop turn sets pixel (y, x) to its source pixel, inverted if asked, and changes no other pixel |
| LedMatrix.MatrixR4Value.constructor | shared/display/MatrixR4Value.h:20-23 | a new value is all off |
| LedMatrix.MatrixR4Value.Update | shared/display/MatrixR4Value.h:28-54 | afterwards the stored value shows the flipped, inverted input (word for word the input or its complement without flips); the result is true iff the stored value changed; repeating the same call returns false |
| LedMatrixDisplay.Started | shared/display/MatrixR4Display.h:75-93 | startAnimation restarts the cursor at 0; with no frames it shows and loads the stored picture, stops animating and disables the animation task; with frames it sets animating and enables the animation task; the animator invariant holds afterwards |
| LedMatrixDisplay.LoopStep | shared/display/MatrixR4Display.h:95-110 | one tick keeps the animator invariant (cursor within the frame count, animating exactly when the animation task is enabled, showing the stored picture when idle) |
| LedMatrixDisplay.LoopIdle | shared/display/MatrixR4Display.h:97 | a tick changes nothing while no animation runs |
| LedMatrixDisplay.LoopAdvances | shared/display/MatrixR4Display.h:98-109 | a tick during an animation loads the next frame and advances the cursor by exactly one, not past the frame count; it keeps animating (showing that frame) iff frames remain |
| LedMatrixDisplay.AnimationCompletes | shared/display/MatrixR4Display.h:95-110 | after as many ticks as frames remain, every remaining frame was loaded in order, the stored picture is shown, animating is false and the animation task is disabled |
| LedMatrixDisplay.AnimationRunsUntilLastFrame | shared/display/MatrixR4Display.h:98-104 | before that, the animation is still running with the cursor advanced by the number of ticks |
| LedMatrixDisplay.MatrixR4Display.constructor | shared/display/MatrixR4Display.h:18-30 | the flags are stored, animate is on, the stored and shown pictures are all off, no animation runs; the display characteristic writes the initial all-off value once |
| LedMatrixDisplay.MatrixR4Display.Begin | shared/display/MatrixR4Display.h:32-37 | the stored picture is shown and loaded onto the matrix |
| LedMatrixDisplay.MatrixR4Display.Update | shared/display/MatrixR4Display.h:39-49 | the stored value shows the input under the display's flips; an unchanged stored value causes no BLE write and no animation restart; a changed one is written to BLE iff writeBLE and restarts the animation |
| LedMatrixDisplay.MatrixR4Display.BleUpdate | shared/display/MatrixR4Display.h:68-73 | an update from BLE never writes back to the characteristic |
| LedMatrixDisplay.MatrixR4Display.StartAnimation | shared/display/MatrixR4Display.h:75-93 | the fields become Started of their old values |
| LedMatrixDisplay.MatrixR4Display.Loop | shared/display/MatrixR4Display.h:95-110 | the fields become LoopStep of their old values |
| Rfid.Fresh | shared/rfid/RFID.h:8-14 | a new record has the given number, timestamp 0, length 0 and an all-zero uuid |
| Rfid.EncodedSize | shared/rfid/RFID.h:41 | encodedSize() is 9 + length, between 9 and 19 (the Encoded size) for length at most 10 |
| Rfid.Encode | shared/rfid/RFID.h:21-39 | bytes 0-3 hold the number widened to 32 bits and bytes 4-7 the timestamp, both little-endian; byte 8 is the length; the next length bytes are the uuid prefix; the uninitialised rest of the array is whatever was there |
| Rfid.Decode | shared/rfid/RFID.h:21-41 | a decoded record is well formed and its encoded size fits the bytes it came from |
| Rfid.DecodeEncode | shared/rfid/RFID.h:21-41 | decoding an encoding gives back the number, timestamp, length and uuid prefix |
| Rfid.EncodeDecode | shared/rfid/RFID.h:21-41 | re-encoding a decoded record reproduces the first encodedSize() bytes |
| RfidDetector.StepKeepsFailBound | shared/rfid/RFIDDetector.h:76-87 | the fail count stays below failResetCount after every tick: a failed read increments it and the reset on reaching the limit clears it |
| RfidDetector.StepLastGood | shared/rfid/RFIDDetector.h:51-65 | lastGoodReadMs becomes now exactly on a re-init (last good read non-zero and (now - last) mod 2^32 > reinitAfterMs) or a successful read; otherwise it is unchanged, resets included |
| RfidDetector.StepGoodRead | shared/rfid/RFIDDetector.h:63-74 | a successful read clears the fail count and sets the cooldown limit to now + cooldownMs (uint32_t) |
| RfidDetector.StepCooldownIgnoresCard | shared/rfid/RFIDDetector.h:56-62 | while now is below the cooldown limit a present card changes nothing, whether or not a read would succeed |
| RfidDetector.NoSecondReadDuringCooldown | shared/rfid/RFIDDetector.h:59-73 | after a good read at t0, the next tick, if it comes before t0 + cooldownMs, reports no card, whatever the reader answers (when the limit does not wrap) |
| RfidDetector.Run | shared/rfid/RFIDDetector.h:47-90 | a run of ticks keeps the fail count below failResetCount |
| RfidDetector.CooldownRunIgnoresCards | shared/rfid/RFIDDetector.h:47-90 | every tick of a run whose times are all below the cooldown limit reports no card, and the limit is still the same after the run: only a good read moves it, a re-init does not |
| RfidDetector.NoReadDuringCooldownRun | shared/rfid/RFIDDetector.h:59-73 | after a good read at t0, a whole run of later ticks before t0 + cooldownMs reports no card (when the limit does not wrap) |
| RfidDetector.FailedReadsReset | shared/rfid/RFIDDetector.h:76-87 | a failed read outside cooldown resets the reader iff it is the fifth in a row, and the count goes to (count + 1) mod 5 |
| RfidDetector.RfidDetector.constructor | shared/rfid/RFIDDetector.h:30-37 | all three counters start at 0 and the last id is a fresh record for the reader number |
| RfidDetector.RfidDetector.Loop | shared/rfid/RFIDDetector.h:47-90 | the timing fields take the specified step; a record is returned iff the tick's read succeeds, and it is the last id with timestamp now, length min(uid size, 10) and the uid's bytes; otherwise the last id is untouched |
| RfidDetector.RfidDetector.Update | shared/rfid/RFIDDetector.h:99-105 | stores the timestamp and length min(uid size, 10) and copies exactly that many uid bytes in place, the rest of the uuid array unchanged |
| RfidDetector.RfidDetector.ResetRc522 | shared/rfid/RFIDDetector.h:107-117 | clears the fail count, counts one reset, and leaves lastGoodReadMs and the rest unchanged |
| BleUuid.UsedLength | shared/ble/BLEUUID.h:25 | the loop encodes min(12, length) name characters |
| BleUuid.PairOfHexPos | shared/ble/BLEUUID.h:24-33 | the hex pair of name character i occupies two positions in 9..35, neither of them a dash position (13, 18, 23) |
| BleUuid.GeneratedPairAt | shared/ble/BLEUUID.h:26-32 | name character i appears as its high and low uppercase hex digits at the cursor; after i = 1, 3, 5 a dash follows and the cursor moves by 3, otherwise by 2 |
| BleUuid.FilledAgrees | shared/ble/BLEUUID.h:21-33 | after i loop rounds the buffer agrees with the finished identifier before the cursor, holds '0' after it up to position 35, and NUL at 36 |
| BleUuid.FilledStep | shared/ble/BLEUUID.h:25-33 | one loop round (sprintf of a pair, optional dash) extends that agreement by one name character |
| BleUuid.MakeUuidWithService | shared/ble/BLEUUID.h:10-39 | a non-empty override gives its first 37 characters; an empty one gives the generated identifier, built by the in-place loop with a moving cursor |
| BleUuid.GeneratedTail | shared/ble/BLEUUID.h:34-36 | every position from the final cursor up to 35 holds '0', so the NUL that sprintf left after the last pair is overwritten |
| BleUuid.GeneratedLayout | shared/ble/BLEUUID.h:21-36 | positions 0-7 are '0', 8 is '-', 36 is NUL, no NUL comes earlier, and 13 / 18 / 23 hold '-' exactly when the name reaches character 1 / 3 / 5 |
| BleUuid.OnlyTwelveCharsCount | shared/ble/BLEUUID.h:25 | characters after the twelfth do not change the result |
| BleUuid.ParsePairOfDigits | shared/ble/BLEUUID.h:26 | parsing two uppercase hex digits h, l gives back 16h + l |
| BleUuid.ParsePairOfHex | shared/ble/BLEUUID.h:26 | parsing the two digits "%02X" writes for an ASCII character gives back its code |
| BleUuid.GeneratedPair | shared/ble/BLEUUID.h:26-27 | the generated identifier holds the hex digits of name character i at HexPos(i) and HexPos(i) + 1 |
| BleUuid.NameBytesOfPairs | shared/ble/BLEUUID.h:24-33 | an identifier holding the hex pairs of the first n name characters decodes to their codes |
| BleUuid.NameRoundTrip | shared/ble/BLEUUID.h:10-39 | decoding the first n hex pairs of a generated identifier recovers the first n name character codes |
| IdbtCharacteristic.WriteIndex | shared/ble/IDBTCharacteristic.h:7-17 | the length is max(strlen(src), 8); positions 4 and 5 hold the uppercase hex digits of the high and low nibble of value; every other position is src's or the '0' padding |
| IdbtCharacteristic.WriteIndexReadsBack | shared/ble/IDBTCharacteristic.h:9-15 | parsing positions 4-5 of the result gives back value |
| IdbtCharacteristic.WriteIndexIdempotent | shared/ble/IDBTCharacteristic.h:7-17 | writeIndex(writeIndex(s, v), v) == writeIndex(s, v) |
| IdbtCharacteristic.WriteIndexOverwrites | shared/ble/IDBTCharacteristic.h:12-15 | a second writeIndex replaces the first one's digits and nothing else: writeIndex(writeIndex(s, a), b) == writeIndex(s, b) |
| IdbtCharacteristic.MakeUuidWithProperty | shared/ble/IDBTCharacteristic.h:20-29 | positions 0-7 come from the property id, 8-35 from the service id, and 36 is NUL |
| IdbtCharacteristic.WithPropertyIdempotent | shared/ble/IDBTCharacteristic.h:20-29 | splicing the same property id twice equals splicing it once |
| IdbtCharacteristic.PropertyKeepsServiceName | shared/ble/IDBTCharacteristic.h:24-28 | splicing a property id into a generated service identifier keeps the hex-encoded service-name characters decodable |
| IdbtCharacteristic.AdjustPermissions | shared/ble/IDBTCharacteristic.h:75-91 | the base bits are kept, Read and Notify are set iff a value is given (or base had them), WriteWithoutResponse iff a handler is given (or base had it), and no other bit changes |
| IdbtCharacteristic.AdjustPermissionsIdempotent | shared/ble/IDBTCharacteristic.h:75-91 | applying the adjustment twice equals applying it once |
| VemlAutoRange.GainName | shared/lighting/Veml7700AutoRange.h:65-73 | indices 0-3 give the labels of x2, x1, x1/4, x1/8; every other index, and only those, gives "?" |
| VemlAutoRange.ItName | shared/lighting/Veml7700AutoRange.h:75-85 | indices 0-5 give the labels of 25..800 ms; every other index, and only those, gives "?" |
| VemlAutoRange.NamesAreDistinct | shared/lighting/Veml7700AutoRange.h:65-85 | different valid indices have different names |
| VemlAutoRange.LessSensitive | shared/lighting/Veml7700AutoRange.h:117-130 | lowers the integration-time index if it can, else raises the gain index; fails exactly at (gain 3, time 0); indices stay in 0..3 and 0..5 |
| VemlAutoRange.MoreSensitive | shared/lighting/Veml7700AutoRange.h:132-145 | lowers the gain index if it can, else raises the integration-time index; fails exactly at (gain 0, time 5); indices stay in range |
| VemlAutoRange.LessSensitiveLowers | shared/lighting/Veml7700AutoRange.h:97-130 | a successful step lowers gain x time (per gainForIdx / itForIdx) and is one step closer to the least sensitive setting |
| VemlAutoRange.MoreSensitiveRaises | shared/lighting/Veml7700AutoRange.h:132-145 | a successful step raises gain x time and is one step closer to the most sensitive setting |
| VemlAutoRange.Desaturate | shared/lighting/Veml7700AutoRange.h:36-42 | the saturated loop keeps the indices in range and makes at most 6 adjustments |
| VemlAutoRange.Brighten | shared/lighting/Veml7700AutoRange.h:43-48 | the too-dark loop keeps the indices in range and makes at most 6 adjustments |
| VemlAutoRange.AutoRange | shared/lighting/Veml7700AutoRange.h:32-58 | read() makes at most 6 adjustments, keeps the indices in range, reports the current indices, and saturated iff the final raw value is at least 60000 |
| VemlAutoRange.DesaturateOutcome | shared/lighting/Veml7700AutoRange.h:36-42 | the saturated loop only moves toward less sensitivity, one step per adjustment, reports the raw value read after the last one, and stops early only when no longer saturated or at the least sensitive setting |
| VemlAutoRange.BrightenOutcome | shared/lighting/Veml7700AutoRange.h:43-48 | the too-dark loop only moves toward more sensitivity, one step per adjustment, and stops early only when above 200 or at the most sensitive setting |
| VemlAutoRange.DesaturateSteps | shared/lighting/Veml7700AutoRange.h:36-42 | the saturated loop is one step closer to the least sensitive setting per adjustment, reports the raw value read after the last one, and stops early only when no longer saturated or at the least sensitive setting |
| VemlAutoRange.DesaturateSensitivity | shared/lighting/Veml7700AutoRange.h:36-42 | after at least one adjustment the saturated loop's setting is strictly less sensitive (gain x time) than its start |
| VemlAutoRange.BrightenSteps | shared/lighting/Veml7700AutoRange.h:43-48 | the too-dark loop is one step closer to the most sensitive setting per adjustment, reports the raw value read after the last one, and stops early only when above 200 or at the most sensitive setting |
| VemlAutoRange.BrightenSensitivity | shared/lighting/Veml7700AutoRange.h:43-48 | after at least one adjustment the too-dark loop's setting is strictly more sensitive than its start |
| VemlAutoRange.DesaturateTrailKeeps | shared/lighting/Veml7700AutoRange.h:36-42 | the saturated loop keeps the settings already sent and adds exactly one per adjustment |
| VemlAutoRange.BrightenTrailKeeps | shared/lighting/Veml7700AutoRange.h:43-48 | the too-dark loop keeps the settings already sent and adds exactly one per adjustment |
| VemlAutoRange.DesaturateTrailSteps | shared/lighting/Veml7700AutoRange.h:36-42 | the saturated loop adds one applied setting per adjustment after those already sent, leaves those unchanged, starts one LessSensitive step from the setting it starts at, and ends at the setting it stops at |
| VemlAutoRange.BrightenTrailSteps | shared/lighting/Veml7700AutoRange.h:43-48 | the too-dark loop adds one applied setting per adjustment, leaves those already sent unchanged, starts one MoreSensitive step from its start, and ends at the setting it stops at |
| VemlAutoRange.DesaturateTrailChain | shared/lighting/Veml7700AutoRange.h:36-42 | each setting the saturated loop applies is exactly one LessSensitive step from the previous one |
| VemlAutoRange.BrightenTrailChain | shared/lighting/Veml7700AutoRange.h:43-48 | each setting the too-dark loop applies is exactly one MoreSensitive step from the previous one |
| VemlAutoRange.DesaturateTrailAfter | shared/lighting/Veml7700AutoRange.h:36-42 | the settings the saturated loop applies do not depend on what was sent before it |
| VemlAutoRange.BrightenTrailAfter | shared/lighting/Veml7700AutoRange.h:43-48 | the settings the too-dark loop applies do not depend on what was sent before it |
| VemlAutoRange.AutoRangeTrailEnds | shared/lighting/Veml7700AutoRange.h:32-58 | one read() applies exactly as many settings as it reports adjustments, and the last one applied is the setting it reports |
| VemlAutoRange.InBandKeepsSetting | shared/lighting/Veml7700AutoRange.h:33-49 | a first raw value strictly between 200 and 60000 makes no adjustment |
| VemlAutoRange.Veml7700AutoRange.constructor | shared/lighting/Veml7700AutoRange.h:155-156 | the indices start at (1, 2) |
| VemlAutoRange.Veml7700AutoRange.Begin | shared/lighting/Veml7700AutoRange.h:19-27 | sets (1, 2), applies x1 and 100 ms, returns true |
| VemlAutoRange.Veml7700AutoRange.Apply | shared/lighting/Veml7700AutoRange.h:147-151 | records the current indices as sent (gainForIdx and itForIdx of them go to the sensor); the indices stay unchanged |
| VemlAutoRange.Veml7700AutoRange.MakeLessSensitive | shared/lighting/Veml7700AutoRange.h:117-130 | the indices take the LessSensitive step and the new setting is applied; on failure nothing changes and nothing is applied |
| VemlAutoRange.Veml7700AutoRange.MakeMoreSensitive | shared/lighting/Veml7700AutoRange.h:132-145 | the indices take the MoreSensitive step and the new setting is applied; on failure nothing changes |
| VemlAutoRange.Veml7700AutoRange.DesaturateLoop | shared/lighting/Veml7700AutoRange.h:36-42 | the saturated for-loop leaves the indices, raw value and count Desaturate specifies and applies exactly DesaturateTrail's settings after the earlier ones |
| VemlAutoRange.Veml7700AutoRange.BrightenLoop | shared/lighting/Veml7700AutoRange.h:43-48 | the too-dark for-loop leaves the indices, raw value and count Brighten specifies and applies exactly BrightenTrail's settings after the earlier ones |
| VemlAutoRange.Veml7700AutoRange.Read | shared/lighting/Veml7700AutoRange.h:32-58 | leaves the indices and the reading that AutoRange specifies; keeps the earlier apply() calls and adds exactly AutoRangeTrail's settings, one per adjustment, the last of them the reported setting |
| I2cHardware.I2cHardware.constructor | shared/PinIO/I2CHardware.h:104-145 | the singleton starts with the board's SDA/SCL (or -1), 100 kHz on AVR and 400 kHz elsewhere, defaultBegin, no error handler, not begun |
| I2cHardware.I2cHardware.Init | shared/PinIO/I2CHardware.h:17-35 | after begin it changes no configuration and reports "[I2C] init() after begin()"; before it sets sda, scl and clock, and beginFn only when fn is non-null |
| I2cHardware.I2cHardware.OnError | shared/PinIO/I2CHardware.h:42-45 | sets the error handler and nothing else |
| I2cHardware.I2cHardware.Begin | shared/PinIO/I2CHardware.h:47-69 | returns whether the bus is begun; once begun it calls nothing again; an invalid config (pins negative or equal, or no beginFn) reports the error and stays not begun; a valid one calls beginFn(sda, scl) and sets the clock exactly once; the invariant that beginFn ran at most once, on a valid config, is kept |
| I2cHardware.I2cHardware.ReportError | shared/PinIO/I2CHardware.h:79-84 | the message goes to the error handler when one is set, otherwise to the I2C_ON_ERROR fallback, and nothing else changes |
| SpiHardware.SpiState.constructor | shared/PinIO/SPIHardware.h:99-136 | the singleton starts with the board's pins (52/50/51 on the Mega 2560, 13/12/11 on other AVR boards, else SCK/MISO/MOSI or -1), defaultBegin, no error handler, not begun |
| SpiHardware.SpiState.OverrideDefaultsPins | shared/PinIO/SPIHardware.h:138-149 | after begin it changes no configuration and reports "[SPI] init() after begin()"; before it sets the three pins, and beginFn only when fn is non-null |
| SpiHardware.SpiState.OverrideDefaults | shared/PinIO/SPIHardware.h:151-159 | after begin it changes nothing and reports the same error; before it replaces beginFn only with a non-null fn |
| SpiHardware.SpiState.OnError | shared/PinIO/SPIHardware.h:41-44 | sets the error handler and no configuration |
| SpiHardware.SpiState.Begin | shared/PinIO/SPIHardware.h:180-195 | returns whether the bus is begun; once begun it calls nothing again; an invalid config (with pin-taking begin: a negative or repeated pin, or no beginFn; otherwise only no beginFn) reports the error and stays not begun; a valid one calls beginFn(sck, miso, mosi) exactly once |
| SpiHardware.SpiState.ReportError | shared/PinIO/SPIHardware.h:197-200 | the message goes to the error handler when one is set, otherwise to the SPI_ON_ERROR fallback |
| SpiHardware.SpiHardware.WithBeginFn | shared/PinIO/SPIHardware.h:26-29 | constructing with a begin function overrides it on the singleton and keeps the pins and begun flag; after begin it is refused with the message and the configuration is unchanged; the handler and begin calls are never touched |
| SpiHardware.SpiHardware.WithPins | shared/PinIO/SPIHardware.h:31-34 | constructing with pins overrides them and the begin function on the singleton, not begun; after begin it is refused with the message and the configuration is unchanged; the handler and begin calls are never touched |
| AudioPlayer.CopyPath | shared/audio/SbjAudioPlayerEsp32S3.h:112-117 | with a buffer and cap > 0: the first min(strlen(src), cap - 1) chars of src, then NUL, nothing past the NUL touched; a null src gives the empty string; a null buffer or cap 0 changes nothing |
| AudioPlayer.CopyChars | shared/audio/SbjAudioPlayerEsp32S3.h:114-116 | the copy loop writes the C-string prefix of src, bounded by cap - 1, and terminates it |
| AudioPlayer.CStringPrefix | shared/audio/SbjAudioPlayerEsp32S3.h:115 | while no NUL has been met, the chars copied so far are a prefix of the C string |
| AudioPlayer.CStringStops | shared/audio/SbjAudioPlayerEsp32S3.h:115 | the loop's `src[i]` test stops exactly at strlen(src) |
| AudioPlayer.CopiedPathReadsBack | shared/audio/SbjAudioPlayerEsp32S3.h:57-58 | the copied buffer, read as a C string, is the truncated path |
| AudioPlayer.ReadBytes | shared/audio/SbjAudioPlayerEsp32S3.h:139 | File::read returns the next min(n, remaining) bytes and advances the position by that many |
| AudioPlayer.Rd16 | shared/audio/SbjAudioPlayerEsp32S3.h:119-123 | two bytes assembled little-endian, 0 on a short read |
| AudioPlayer.Rd32 | shared/audio/SbjAudioPlayerEsp32S3.h:125-132 | four bytes assembled little-endian, 0 on a short read |
| AudioPlayer.Rd32OfEncoding | shared/audio/SbjAudioPlayerEsp32S3.h:125-132 | rd32_ reads back the little-endian encoding of any uint32_t |
| AudioPlayer.Rd16OfEncoding | shared/audio/SbjAudioPlayerEsp32S3.h:119-123 | rd16_ reads back the little-endian encoding of any uint16_t |
| AudioPlayer.SeekAsWrittenWrapsOnce | shared/audio/SbjAudioPlayerEsp32S3.h:178-180 | the uint32_t sum position + padded(sz), with padded itself wrapping, is the exact sum taken mod 2^32 |
| AudioPlayer.ReadFmtFields | shared/audio/SbjAudioPlayerEsp32S3.h:156-161 | fmt, ch, sr and bits are what rd16_/rd32_ give at offsets 0, 2, 4 and 14 of the fmt body (little-endian when the body is complete, 0 for a field the file ends inside) |
| AudioPlayer.ExactChunk | shared/audio/SbjAudioPlayerEsp32S3.h:147-181 | one chunk step of the walker moves the position forward by at least the 4-byte id |
| AudioPlayer.Chunk | shared/audio/SbjAudioPlayerEsp32S3.h:147-181 | without the 32-bit wrap of the seek target, a chunk step is the exact one |
| AudioPlayer.ChunkFinds | shared/audio/SbjAudioPlayerEsp32S3.h:155-176 | a step that sets gotFmt stood on a "fmt " header of at least 16 bytes whose body gave the new fmt fields; any other step keeps them; a step that sets gotData recorded the offset just past a "data" header and its declared size; flags are never cleared; a successful stop has both flags |
| AudioPlayer.ParseWav | shared/audio/SbjAudioPlayerEsp32S3.h:134-184 | the imperative walker returns what the chunk-walk specification returns |
| AudioPlayer.ReadChunk | shared/audio/SbjAudioPlayerEsp32S3.h:148-180 | one loop body (id, size, fmt / data / skip branch) is the specified chunk step |
| AudioPlayer.ParseWavNeedsRiffWave | shared/audio/SbjAudioPlayerEsp32S3.h:137-143 | acceptance implies bytes 0-3 are "RIFF" and 8-11 are "WAVE" |
| AudioPlayer.WalkFindsChunks | shared/audio/SbjAudioPlayerEsp32S3.h:145-183 | a walk that succeeds reports the format, channels, rate and bits read from an "fmt " chunk of at least 16 bytes in the file, and a data region whose header ends at dataOff and declares dataSize |
| AudioPlayer.ParseWavFindsChunks | shared/audio/SbjAudioPlayerEsp32S3.h:134-184 | parseWav_ returns true only for a file that has both chunks, with the fmt fields taken from an "fmt " chunk's body and dataOff and dataSize from the "data" header |
| AudioPlayer.CanonicalWavAccepted | shared/audio/SbjAudioPlayerEsp32S3.h:134-184 | every file made of RIFF, WAVE, a 16-byte "fmt " chunk and a "data" header is accepted with exactly the format, channels, rate and bits it states, dataOff 44 and the declared data size, and its walk makes no seek that wraps |
| AudioPlayer.CanonicalSlices | shared/audio/SbjAudioPlayerEsp32S3.h:137-176 | in such a file the tags and the little-endian fields sit at the offsets where parseWav_ reads them |
| AudioPlayer.WalkAsWrittenAgrees | shared/audio/SbjAudioPlayerEsp32S3.h:147-181 | when no seek target of the walk reaches 2^32, the source's wrapping walker ends within a chunk per four bytes and gives the same verdict and fields as the exact walker |
| AudioPlayer.ShortFmtRejects | shared/audio/SbjAudioPlayerEsp32S3.h:166-169 | a "fmt " chunk declaring fewer than 16 bytes makes the parse fail |
| AudioPlayer.UnknownChunkSkipped | shared/audio/SbjAudioPlayerEsp32S3.h:178-180 | an unknown chunk is skipped by its size rounded up to even |
| AudioPlayer.WalkContinues | shared/audio/SbjAudioPlayerEsp32S3.h:147 | while the loop condition holds, the walk goes on from the next chunk |
| AudioPlayer.UnknownChunkStep | shared/audio/SbjAudioPlayerEsp32S3.h:178-180 | the exact skip target is pos + 8 + size + size % 2 |
| AudioPlayer.UnknownChunkSeeksAsWritten | shared/audio/SbjAudioPlayerEsp32S3.h:178-180 | with the uint32_t seek target the skip lands on the wrapped sum |
| AudioPlayer.WrappedSeekNeverReturns | shared/audio/SbjAudioPlayerEsp32S3.h:147-181 | with the wrapped seek, a 20-byte file whose unknown chunk declares 0xFFFFFFF8 bytes makes the walker return to offset 12 forever: no number of rounds ends the walk |
| AudioPlayer.ExactSeekRejectsLoopingFile | shared/audio/SbjAudioPlayerEsp32S3.h:147-183 | with the seek target not wrapped, the same file is rejected |
| AudioPlayer.MonoSamples | shared/audio/SbjAudioPlayerEsp32S3.h:261-262 | the n bytes read hold n / 2 little-endian int16 samples |
| AudioPlayer.MonoToStereo | shared/audio/SbjAudioPlayerEsp32S3.h:261-270 | each mono sample i is written to stereo[2i] and stereo[2i + 1], the rest of the buffer is unchanged, and 4 * (n / 2) bytes go to I2S |
| AudioPlayer.BothChannelsAreMono | shared/audio/SbjAudioPlayerEsp32S3.h:266-269 | the left and the right channel of the duplicated buffer are both the mono signal |
| AudioPlayer.SampleBytesOfSample | shared/audio/SbjAudioPlayerEsp32S3.h:262 | an int16 sample is sent as the two bytes it was read from |
| AudioPlayer.DuplicateMono | shared/audio/SbjAudioPlayerEsp32S3.h:261-270 | duplication doubles the output length: 4 bytes per whole mono sample |
| AudioPlayer.DuplicateMonoAppend | shared/audio/SbjAudioPlayerEsp32S3.h:250-275 | duplicating two even-length reads one after another equals duplicating them together |
| AudioPlayer.EncodeDuplicated | shared/audio/SbjAudioPlayerEsp32S3.h:266-270 | the bytes of the stereo buffer are each sample's two bytes, twice |
| AudioPlayer.StreamAppend | shared/audio/SbjAudioPlayerEsp32S3.h:250-275 | the sample stream of consecutive even-length reads is the stream of their concatenation |
| AudioPlayer.PlayOutcome | shared/audio/SbjAudioPlayerEsp32S3.h:234-283 | I2S is started (at the file's rate) iff the file opens, parses and is 16-bit PCM mono or stereo; otherwise nothing is sent |
| AudioPlayer.SilenceChunksShape | shared/audio/SbjAudioPlayerEsp32S3.h:225-231 | the chunks sum to the frame count, there are ceil(frames / 512) of them, each 1..512 frames, all but the last exactly 512 |
| AudioPlayer.WriteSilenceMs | shared/audio/SbjAudioPlayerEsp32S3.h:219-232 | the loop writes 4 bytes per frame in the chunks above, sr * ms / 1000 frames (uint32_t) in total |
| AudioPlayer.MakeRequest | shared/audio/SbjAudioPlayerEsp32S3.h:56-58 | the queued path is the C string cut to 95 chars |
| AudioPlayer.SbjAudioPlayer.constructor | shared/audio/SbjAudioPlayerEsp32S3.h:30-39 | defaults: queue depth 4, flush 200 ms, loop delay 5000 ms; no queue, no task, not playing |
| AudioPlayer.SbjAudioPlayer.Begin | shared/audio/SbjAudioPlayerEsp32S3.h:41-48 | a failed xQueueCreate returns false and leaves no queue; otherwise the queue is fresh and the result is startTask's |
| AudioPlayer.SbjAudioPlayer.PlayFileOnce | shared/audio/SbjAudioPlayerEsp32S3.h:234-283 | what goes to I2S is PlayOutcome: the data chunk's samples (duplicated for mono) then the silence flush; playing ends false after a played file |
| AudioPlayer.SbjAudioPlayer.StreamSamples | shared/audio/SbjAudioPlayerEsp32S3.h:248-275 | the read loop sends dataSize bytes from dataOff (or up to end of file), as stored for stereo and duplicated for mono |
| AudioPlayer.SbjAudioPlayer.SendChunk | shared/audio/SbjAudioPlayerEsp32S3.h:256-271 | one read's worth of bytes goes out as stored for stereo, duplicated for mono |
| AudioPlayer.SbjAudioPlayer.ServeNext | shared/audio/SbjAudioPlayerEsp32S3.h:285-293 | one round of the player's task loop: an empty queue does nothing; otherwise the head request is removed, its file played and the loop delay waited |
| AudioPlayer.SbjAudioPlayer.StartTask | shared/audio/SbjAudioPlayerEsp32S3.h:77-89 | with a task already present it returns true and creates nothing; otherwise it asks for one task and returns whether creation passed |
| AudioPlayer.SbjAudioPlayer.PlayOnce | shared/audio/SbjAudioPlayerEsp32S3.h:51-63 | accepted iff a queue exists, the path is non-null and non-empty, and the queue has room; an accepted request is appended with its path cut to 95 chars; otherwise the queue is unchanged |
| AudioPlayer.SbjAudioPlayer.SetLoopDelayMs | shared/audio/SbjAudioPlayerEsp32S3.h:73 | sets the loop delay and nothing else |
| St7789Display.Rgb565Fields | shared/display/ST7789Display.h:77-79 | red's top 5 bits land in bits 15-11, green's top 6 in bits 10-5, blue's top 5 in bits 4-0 |
| St7789Display.Rgb565IgnoresLowBits | shared/display/ST7789Display.h:77-79 | the low-order colour bits (3 of red and blue, 2 of green) do not affect the result |
| St7789Display.ByteAt | shared/display/ST7789Display.h:141-143 | File::read gives the byte at the position, or 0xFF (the -1 of end of file, truncated to uint8_t) past the end |
| St7789Display.Read16 | shared/display/ST7789Display.h:81-86 | two bytes assembled in little-endian (host) order; 0xFFFF entirely past the end |
| St7789Display.Read32 | shared/display/ST7789Display.h:88-95 | four bytes assembled in little-endian (host) order; 0xFFFFFFFF entirely past the end |
| St7789Display.AsInt32 | shared/display/ST7789Display.h:107-108 | the (int32_t) cast reinterprets the uint32_t in two's complement |
| St7789Display.ParseHeaderAccepts | shared/display/ST7789Display.h:101-118 | the header is accepted iff the file holds the 34 header bytes, the first word is 0x4D42, planes is 1, depth is 24 and compression is 0 |
| St7789Display.ParseHeaderFields | shared/display/ST7789Display.h:103-108 | offset, width and height are the little-endian words at bytes 10, 18 and 22 |
| St7789Display.RowSizeIsPadded | shared/display/ST7789Display.h:120 | rowSize is the smallest multiple of 4 that is at least 3 * width |
| St7789Display.RowAddressing | shared/display/ST7789Display.h:121-133 | without wrap-around, a positive height reads screen row r from offset + (height - 1 - r) * rowSize and a negative one from offset + r * rowSize, over \|height\| rows |
| St7789Display.AddressInRange | shared/display/ST7789Display.h:132 | a row offset below the last stored row stays below 2^32 when the image does |
| St7789Display.FlippedHeightReversesRows | shared/display/ST7789Display.h:121-132 | negating the height reverses the order in which stored rows are shown |
| St7789Display.RowColors | shared/display/ST7789Display.h:140-145 | each pixel of a row is rgb565 of its bytes read in B, G, R order |
| St7789Display.ChunksCoverRow | shared/display/ST7789Display.h:135-153 | the writePixels calls of a row hold the row in order, each of 1..80 pixels, all but the last of exactly 80 |
| St7789Display.DrawBmp | shared/display/ST7789Display.h:97-158 | true iff the file opens and its header is accepted; a rejected file sets no window and writes nothing; an accepted one sets the window (x, y, width, \|height\|) once and writes every row's chunks, rows in screen order |
| St7789Display.DrawRows | shared/display/ST7789Display.h:131-154 | the row loop writes exactly the chunks of every screen row, each read from its stored row's offset |
| St7789Display.RowPosAsComputed | shared/display/ST7789Display.h:120-132 | the loop's uint32_t position expression is the row's offset; a negative width draws no pixels |
| St7789Display.DrawRow | shared/display/ST7789Display.h:135-153 | the column loop sends the row's pixels as its 80-pixel chunks |
| St7789Display.FillLine | shared/display/ST7789Display.h:140-145 | the inner loop fills lineBuffer[0..chunk) with the chunk's colours |
| St7789Display.RowColorsSlice | shared/display/ST7789Display.h:137-145 | the chunk starting at column col holds the row's pixels col.. col + chunk - 1 |
| St7789Display.ChunksFrom | shared/display/ST7789Display.h:136-152 | the chunk size min(80, width - col) is the next chunk of the row |
| DockSensor.DockedByte | TrainStation/TrainDockSensor.h:18-23 | Docked is written to BLE as its underlying byte 0, 1 or 2 |
| DockSensor.DockedByteInjective | TrainStation/TrainDockSensor.h:18-23 | different classes are written as different bytes |
| DockSensor.ClassifyMonotone | TrainStation/TrainDockSensor.h:47 | the classification is monotone in the reading |
| DockSensor.ClassifyBands | TrainStation/TrainDockSensor.h:47 | below 5 is None, 5..19 is Passive, 20 and above is Charging |
| DockSensor.Changes | TrainStation/TrainDockSensor.h:47-51 | a tick reports at most one class, and reports exactly when the class differs from the stored one |
| DockSensor.BytesAppend | TrainStation/TrainDockSensor.h:50 | the bytes written over two runs of reports are the bytes of each run in order |
| DockSensor.AsWrittenReportsEveryDockedReading | TrainStation/TrainDockSensor.h:44-52 | as written (the stored class stays None), every reading of 5 or more is reported, however often it repeats |
| DockSensor.ReportsAlwaysChange | TrainStation/TrainDockSensor.h:48-51 | with the stored class following the reports, no report repeats the one before it |
| DockSensor.SteadyPassiveDock | TrainStation/TrainDockSensor.h:44-52 | two readings of 10 are reported twice as written and once with the stored class updated |
| DockSensor.ReportsAsWrittenStep | TrainStation/TrainDockSensor.h:44-52 | one tick of the loop as written adds that tick's report to the run's |
| DockSensor.ReportsStep | TrainStation/TrainDockSensor.h:44-52 | one tick of the corrected loop adds that tick's report and moves the stored class on |
| DockSensor.TrainDockSensor.constructor | TrainStation/TrainDockSensor.h:26-32 | the stored class starts as None with no callback made; the characteristic over _detected writes its byte 0 once |
| DockSensor.TrainDockSensor.Loop | TrainStation/TrainDockSensor.h:44-52 | on a class different from the stored one, the callback (if set) gets it and its byte is written to BLE; a null callback skips only the call; the stored class never changes |
| DockSensor.TrainDockSensor.LoopUpdatingDetected | TrainStation/TrainDockSensor.h:44-52 | the same tick, with the reported class stored, so only changes are reported |
| DockSensor.TrainDockSensor.RunAsWritten | TrainStation/TrainDockSensor.h:44-52 | a run of ticks as written writes the bytes of ReportsAsWritten |
| DockSensor.TrainDockSensor.Run | TrainStation/TrainDockSensor.h:44-52 | a run of corrected ticks writes the bytes of Reports |

## Left out

- FreeRTOS itself is left out. `xTaskCreatePinnedToCore`, `vTaskDelay`, `taskYIELD` and `vTaskDelete` appear only as recorded creations and trace events. Preemptive scheduling, parallel execution and races between tasks are concurrency, which this model does not cover.
- The TaskScheduler library is not part of this model. That covers `Scheduler`, `Task::enable`, `getCurrentTask`, the local-storage pointer and the pump's due-time and round-robin behaviour. `SchedTask` records only what `SBJTask.h` hands over: interval, iterations, start delay, the callback and the enabled flag.
- SbjTask.EspEntry: for a `FOREVER` task, the contract states the trace prefix for any finite number of rounds, not the infinite trace itself.
- SbjTask.RunTimedLoop: for a `FOREVER` task, the contract states the trace prefix for any finite number of rounds, not the infinite trace itself.
- I2S channel setup and writes, the FreeRTOS queue, SD file opening and `isPlaying` are device and queue I/O. The WAV file is an in-memory byte sequence with a position cursor. I2S output is a recorded byte sequence.
- `i2sStart_` and `debugPrint` in the audio player are device setup and logging.
- The stray comma in the parameter list of `playFileOnce_` (shared/audio/SbjAudioPlayerEsp32S3.h:234) is a syntax slip. The model takes the intended parameter list.
- AudioPlayer.WalkAsWritten takes a chunk count (`fuel`), because the as-written walker need not end. It is used only to show the looping file; ParseWav, the walker the model uses, terminates on its own.
- The ST7789 device calls (`setAddrWindow`, `writePixels`, `startWrite`), `begin`/`prepare` and SD file opening are device I/O. The file is a byte sequence, and the address window and the chunks of colours pushed are results of `DrawBmp`.
- The model does not capture the `int32_t` overflow of `width * 3` and of `-height` for `INT32_MIN` in `drawBMP`. Header widths and heights are treated as mathematical integers.
- `loadFrame` of the Arduino LED matrix is a recorded sequence of loaded frames.
- `MatrixR4Value::animateTo` and `Frames` are not shown in the source, so the animation frames are an input.
- The BLE characteristic registration in the `IDBTCharacteristic` constructor and the BLE service plumbing are BLE stack calls. Characteristic writes are recorded values, including the initial write the constructor makes when it is given a value.
- `RFID::print`, gain and integration-time name printing, `debugPrint` and other Serial output are logging.
- `RFIDDetector::begin` and the MFRC522 calls are device I/O. Card presence, the read result and the uid are inputs to each tick.
- RfidDetector.NoSecondReadDuringCooldown and RfidDetector.NoReadDuringCooldownRun assume that `t0 + cooldownMs` does not wrap past 2^32. With a wrapped limit, the cooldown ends at once, as the `uint32_t` comparison in the source does. Step models that wrap.
- `Veml7700AutoRange::readLux`, the float lux conversion, the `I2CHardware::begin` call inside `begin` and the `delay` in `apply` are left out. They are floating point, bus I/O and timing.
- The fallback error macro of `I2CHardware`/`SPIHardware` is modelled as a report with handler 0. Its text output is logging.
- I2cHardware.I2cHardware.ReportError: the contract states only the recorded report (handler and message), not the Serial text the fallback macro prints.
- SpiHardware.SpiState.ReportError: the contract states only the recorded report (handler and message), not the Serial text the fallback macro prints.
- The networking and BLE runners (`TheWifi.h`, `TheBLE.h`, `BLEServiceRunner.h`), the file system wrappers, the lighting subsystems and `RFIDBroadcaster.h` are glue around the modelled pieces. They are not part of this model.

## Findings

| source | as written | input that shows it | evidently intended | confidence | as-written member | corrected member |
|---|---|---|---|---|---|---|
| shared/PinIO/SBJTask.h:127-128 | the member-method constructor calls `bindEntry(nullptr, obj)`, so `fn0` is the object and `arg` is null, and `InvokeMember::init` fails | any non-null object with any member method: the FreeRTOS task is created but the callback is never called | `bindEntry(obj, nullptr)`, as the descriptor constructor does at lines 154-155 | high, not executed | SbjTask.MemberBindingAsWrittenNeverCalls | SbjTask.MemberBindingCalls |
| shared/PinIO/SBJTask.h:68-72 | `msToTicks` adds `ms + portTICK_PERIOD_MS - 1` in `uint32_t`, which wraps for large `ms`; the entry routine then yields where it should delay | `ms = 0xFFFFFFFF` with a 10 ms tick gives 0 ticks, so a two-call task with that interval traces Yield, Call, Yield, Call, Delete | the ceiling `ceil(ms / portTICK_PERIOD_MS)`, here 429496730 | high, not executed | SbjTask.WrappedIntervalYields | SbjTask.MsToTicks |
| shared/audio/SbjAudioPlayerEsp32S3.h:178-180 | an unknown chunk is skipped with `seek(position + padded(sz))` in `uint32_t`, which wraps modulo 2^32 | a RIFF/WAVE file whose first chunk at offset 12 is unknown, with size 0xFFFFFFF8: the walker seeks back to 12 and loops forever | an exact seek past the end of the file, which ends the walk and rejects the file | medium, not executed | AudioPlayer.WrappedSeekNeverReturns | AudioPlayer.ExactSeekRejectsLoopingFile |
| TrainStation/TrainDockSensor.h:44-52 | `loop` compares the class with `_detected` but never assigns `_detected`, so it stays `None` | two consecutive readings of 10: both ticks notify `Passive` | notify only when the class changes, with `_detected = d` after notifying | high, not executed | DockSensor.AsWrittenReportsEveryDockedReading | DockSensor.ReportsAlwaysChange |
