# wiiMouse driver core in Dafny

This project models the core of the wiiMouse driver. The driver talks to a Nintendo Wii
Remote ("mote") and its optional Nunchuk extension ("chuk") over 22-byte HID reports, and
turns the controller into a keyboard and mouse. The model covers four parts:

- **Wire vocabulary** (`Protocol`, `Records`). The report and command identifiers, the
  button, LED, rumble and nunchuk masks, the profile indices and the packet size. The
  controller and nunchuk records are datatypes.
- **Codec** (`Codec`). The extension-byte decryption, the 16-bit button word and its
  flags, the inbound-report decoder (`ApplyReport`), the outbound command frames, and the
  decoders for the status and calibration replies. Each decoder has a builder for the
  frame the controller would send and a round-trip lemma.
- **Control mapper** (`Mapper`). One pass of the polling loop for each profile: Mouse,
  Emulator and FPS. Keys are edge-triggered against the previous pass, the mouse buttons
  go through latches, Minus/Plus rotate the profile, and each change shows the profile
  on the LEDs.
- **Driver object** (`Device`). The class `Wiimote` has two 22-byte buffer arrays
  `rdPkt` and `wrPkt`, the controller record, and a scripted transport:
  - `pending`: the readings the device will deliver;
  - `sent`: a log of every frame written;
  - `writable`: whether writes succeed;
  - `events`: a log of the synthesized keyboard and mouse input.

  Its methods change the arrays and fields step by step, as the driver does. Each method
  is proved against a pure function:
  - `ParseReport` against `Codec.ApplyReport`;
  - `Initialize` against `Device.Handshake`;
  - `Tick` against `Device.Pass`;
  - `DebugLoop` against `Device.Passes`.

Floating-point quantities are not computed. The controller's and the nunchuk's tilt and
force, and the nunchuk's stick position, are each recorded as a `Derived` value: the raw
bytes they were last computed from, or `Initial` before the first computation. The loop
receives the results of the float math as a per-pass `Readings` record:
- the truncated mouse moves;
- the outcomes of the tilt and force threshold tests.

Three behaviours of the driver are easy to miss, and the model keeps each one:
- **FPS dead zone.** The FPS dead zone compares the move as a 32-bit unsigned value, so
  only 0 and 1 snap to 0 and a move of -1 passes through as 0xFFFFFFFF
  (wiiMouse/Wiimote.cpp:556-562). `Mapper.DeadZoneIsOneSided` states this.
- **Throw key.** The throw test runs on every FPS pass, with a nunchuk or without one, so
  a downward jolt of the controller presses and releases 'G' even without an extension
  (wiiMouse/Wiimote.cpp:698-714). `Mapper.FpsMoteEvents` does the same, as an edge of the
  throw level against the previous pass's.
- **LED frame on both buttons.** A pass with both Minus and Plus down leaves the profile
  unchanged but still sends an LED frame, because `myModeChanged` is set by either button
  (wiiMouse/Wiimote.cpp:730, 741).

## Model

| member | source | states |
|---|---|---|
| Protocol.ButtonMasksAreTheSixteenBits | wiiMouse/Wiimote.h:79-94 | mask i of the button word is bit i, so the 16 masks are pairwise disjoint single bits |
| Protocol.ButtonBitsPartitionTheWord | wiiMouse/Wiimote.h:79-94 | the 11 button/dpad masks and the 5 unknown/LSB masks are disjoint and cover the word |
| Protocol.ProfilesAreConsecutive | wiiMouse/Wiimote.h:35-38 | the profiles are 0, 1, 2 and the rotation bound is the largest of them |
| Protocol.LedMasksAvoidRumble | wiiMouse/Wiimote.h:72-103 | the LED masks are disjoint from each other and from the rumble bit, so OR-ing rumble in keeps the LED nibble |
| Protocol.ChukMasksAreDistinctBits | wiiMouse/Wiimote.h:95-96 | Z is 0x01 and C is 0x02, distinct single bits |
| Protocol.ReportIdsDisjoint | wiiMouse/Wiimote.h:41-69 | input report IDs lie in 0x20-0x3f, output IDs in 0x11-0x1a, and none is both |
| Codec.WiiDecrypt | wiiMouse/Wiimote.cpp:1117-1120 | decryption undoes the controller's obfuscation: the encryption of the result is the input |
| Codec.DecryptArithmetic | wiiMouse/Wiimote.cpp:1120 | the decrypted byte is ((c XOR 0x17) + 0x17) mod 256 |
| Codec.DecryptBijective | wiiMouse/Wiimote.cpp:1117-1120 | decryption is injective on bytes and inverts encryption |
| Codec.DecryptKnownValues | wiiMouse/Wiimote.cpp:1117-1120 | 0x17 and 0x37 are fixed points, 0x00 decrypts to 0x2E, plus further sample pairs |
| Codec.ButtonWord | wiiMouse/Wiimote.cpp:845-846 | byte 1 is the word's high byte and byte 2 its low byte |
| Codec.ButtonWordSplit | wiiMouse/Wiimote.cpp:845-846 | every word is the button word of its own high and low bytes |
| Codec.CommandAt | wiiMouse/Wiimote.cpp:929-936 | byte i of a command frame is byte i of the bytes filled in |
| Codec.ButtonsRoundTrip | wiiMouse/Wiimote.cpp:791-806 | decoding the word encoded from any dpad and button flags gives those flags back |
| Codec.ButtonsDecodeNamedBits | wiiMouse/Wiimote.cpp:791-806 | re-encoding the decoded flags gives exactly the word's named bits, so each flag reads its own mask |
| Codec.SpareBitsIgnored | wiiMouse/Wiimote.cpp:791-806 | setting or clearing any unknown or accelerometer-LSB bits changes no flag |
| Codec.ChukButtonsRoundTrip | wiiMouse/Wiimote.cpp:898-903 | with inverted polarity (a clear bit is pressed), the nunchuk C/Z decode inverts their encoding |
| Codec.Command | wiiMouse/Wiimote.cpp:781-787 | a command frame is its leading bytes followed by zeros up to 22 bytes |
| Codec.ModeFrameLayout | wiiMouse/Wiimote.cpp:927-938 | the report-mode frame is 0x12, the continuous byte, the mode, then zeros |
| Codec.RumbleFrameLayout | wiiMouse/Wiimote.cpp:949-969 | the rumble frame is 0x1a, then 0x01 or 0x00, then zeros |
| Codec.LedFrameLayout | wiiMouse/Wiimote.cpp:973-987 | the LED frame is 0x11, the mask with the rumble bit OR-ed in when rumbling, then zeros; the LED nibble is the mask's |
| Codec.ApplyReport | wiiMouse/Wiimote.cpp:833-921 | no report touches presence, rumble, battery or any calibration |
| Codec.StatusUpdate | wiiMouse/Wiimote.cpp:240-260 | a status reply changes only the extension flag and the battery, which stays in 0..127 when changed |
| Codec.MoteCalibrationUpdate | wiiMouse/Wiimote.cpp:280-307 | a controller calibration reply changes only the zero and scale points |
| Codec.ChukCalibrationUpdate | wiiMouse/Wiimote.cpp:353-383 | a nunchuk calibration reply changes only the nunchuk's zero, scale and stick calibration |
| Codec.ReportInert | wiiMouse/Wiimote.cpp:833-921 | a failed read, or any tag other than 0x30, 0x31 and 0x35, leaves the record unchanged |
| Codec.ButtonReportChangesButtonsOnly | wiiMouse/Wiimote.cpp:838-850 | a 0x30 report sets each flag to its bit of the word and changes nothing else |
| Codec.AccReportEffect | wiiMouse/Wiimote.cpp:852-873 | a 0x31 report also copies bytes 3-5 undecrypted into the axes; motion is recomputed iff the X zero point is non-zero, the nunchuk's only when connected |
| Codec.AccExtReportEffect | wiiMouse/Wiimote.cpp:875-912 | a 0x35 report also sets the nunchuk stick and axes to the decrypted bytes 6-10, C/Z pressed iff bit 0x02/0x01 of decrypted byte 11 is clear, and recomputes motion and stick iff calibrated |
| Codec.ButtonReportRoundTrip | wiiMouse/Wiimote.cpp:838-850 | parsing a 0x30 report built from any flags sets exactly those flags |
| Codec.AccReportRoundTrip | wiiMouse/Wiimote.cpp:852-866 | parsing a 0x31 report built from flags and axes recovers both |
| Codec.AccExtReportRoundTrip | wiiMouse/Wiimote.cpp:875-903 | parsing an encrypted 0x35 report recovers the flags, axes, nunchuk stick, axes and buttons |
| Codec.StatusUpdateEffect | wiiMouse/Wiimote.cpp:240-260 | only a 0x20 reply changes anything: extension present iff bit 0x02 of byte 3, battery is byte 6 halved (0-127) |
| Codec.MoteCalibrationUpdateEffect | wiiMouse/Wiimote.cpp:280-307 | only a 0x21 reply from offset 0x16 is taken: zero from bytes 6-8, scale from 10-12 (byte 9 skipped), nothing else changes |
| Codec.ChukCalibrationUpdateEffect | wiiMouse/Wiimote.cpp:353-383 | only a 0x21 reply with byte 4 0x00, byte 5 0x20 and byte 3 0xD0 is taken: zero, scale and stick max/min/center are the decrypted bytes 6-8, 10-12 and 14-19 |
| Codec.StatusExample | wiiMouse/Wiimote.cpp:254-257 | a status byte 0x02 and raw battery 176 report an extension and 88 |
| Codec.StatusRoundTrip | wiiMouse/Wiimote.cpp:240-260 | parsing a built status reply recovers the extension flag and half the raw battery |
| Codec.MoteCalibrationRoundTrip | wiiMouse/Wiimote.cpp:280-307 | parsing a built controller calibration reply stores exactly its zero and scale points |
| Codec.ChukCalibrationRoundTrip | wiiMouse/Wiimote.cpp:353-383 | parsing a built, encrypted nunchuk calibration reply stores exactly its zero, scale and stick calibration |
| Transport.DropN | wiiMouse/Wiimote.cpp:811-814 | k reads leave the script k entries shorter, or empty |
| Transport.ReadStep | wiiMouse/Wiimote.cpp:811-814 | after k reads the next reads take the script's entries from k on |
| Mapper.AsDword | wiiMouse/Wiimote.cpp:556-557 | a signed move stored in a DWORD is congruent to it modulo 2^32 |
| Mapper.Edge | wiiMouse/Wiimote.cpp:479-517 | a key goes down on a rising edge, up on a falling edge, and nothing happens otherwise |
| Mapper.SteadyIsSilent | wiiMouse/Wiimote.cpp:479-528 | on the per-pass edge fold, a control that keeps its snapshot's level sends nothing over any number of passes; `Device.EmuSteadyIsSilent` carries this to the loop |
| Mapper.HoldThenReleaseEmitsOnePair | wiiMouse/Wiimote.cpp:479-528 | on the edge fold, a control held for N >= 1 passes and then released sends exactly one key down and one key up; `Device.EmuHoldThenRelease` carries this to the loop |
| Mapper.ReleaseAfterHold | wiiMouse/Wiimote.cpp:479-528 | on the edge fold, from a held snapshot, more held passes and a release send exactly one key up; `Device.EmuKeyARun` shows the loop computes this fold |
| Mapper.Latch | wiiMouse/Wiimote.cpp:436-461 | the latch ends equal to the button and clicks only when the two differed, in the button's direction |
| Mapper.LatchRunSteady | wiiMouse/Wiimote.cpp:436-461 | on the latch fold, a button that stays at its latched level never clicks; `Device.MouseSteadyIsSilent` carries this to the loop |
| Mapper.LatchHoldThenRelease | wiiMouse/Wiimote.cpp:436-461 | on the latch fold, a mouse button held for N >= 1 passes and released is pressed once and released once; `Device.MouseHoldThenRelease` carries this to the loop |
| Mapper.LatchReleaseAfter | wiiMouse/Wiimote.cpp:436-461 | on the latch fold, from a latched button, more held passes and a release send exactly one release; `Device.MouseLeftRun` shows the loop computes this fold |
| Mapper.EdgeRunSnoc | wiiMouse/Wiimote.cpp:479-517 | one more pass adds that pass's edge against the level the run ended at |
| Mapper.LatchRunSnoc | wiiMouse/Wiimote.cpp:436-461 | one more pass adds that pass's latch against the last level, which is where the latch stands |
| Mapper.EmuStepKeyA | wiiMouse/Wiimote.cpp:479-485 | in an Emulator pass the 'A' key events are exactly the A button's edge, since no other control sends 'A', and the snapshot takes A's level |
| Mapper.MouseStepLeftClicks | wiiMouse/Wiimote.cpp:436-449 | in a Mouse pass the left-button clicks are exactly the A button's latch, since no other control clicks it, and the latch takes A's level |
| Mapper.MouseStep | wiiMouse/Wiimote.cpp:428-462 | the stored move is the tilt move, the latches take A and B, nothing else in the loop state changes, and the move is sent first |
| Mapper.EmuStep | wiiMouse/Wiimote.cpp:463-529 | the snapshot takes this pass's levels and nothing else in the loop state changes |
| Mapper.DeadZone | wiiMouse/Wiimote.cpp:556-562 | the move is kept or zeroed, and zeroed exactly when it is 0 or 1 as an unsigned value |
| Mapper.FpsStep | wiiMouse/Wiimote.cpp:530-716 | the latches take B (left) and A (right), the snapshots and throw level are taken, the nunchuk snapshot and the move only with a nunchuk, and the move is sent first |
| Mapper.ProfileStep | wiiMouse/Wiimote.cpp:426-718 | a profile pass never changes the profile itself, and an index outside the three profiles does nothing |
| Mapper.MouseStepEffect | wiiMouse/Wiimote.cpp:428-462 | Mouse: move by tilt, wheel -120/+120 on dpad down/up, latches follow A and B, no snapshot changes |
| Mapper.EmuStepEffect | wiiMouse/Wiimote.cpp:463-529 | Emulator: the snapshot takes this pass's levels, and a pass in which nothing changed sends nothing |
| Mapper.FpsStepState | wiiMouse/Wiimote.cpp:530-716 | FPS: latches follow A (right) and B (left); snapshots and throw are taken; with a nunchuk the move is 0 or at least 2 and the nunchuk snapshot is taken, without one the move repeats |
| Mapper.FpsStepMovesFirst | wiiMouse/Wiimote.cpp:554-564 | every FPS pass sends the stored move first |
| Mapper.SharedLatchAcrossProfiles | wiiMouse/Wiimote.cpp:584-596 | a left button latched earlier is released in FPS when B is up, whatever A does |
| Mapper.DeadZoneIsOneSided | wiiMouse/Wiimote.cpp:556-562 | the unsigned dead zone snaps +1 to 0 but lets -1 through as 0xFFFFFFFF |
| Mapper.AButtonPressesLeftMouse | wiiMouse/Wiimote.cpp:436-440 | a 0x31 report with bytes 00 08 presses A, and the Mouse profile sends exactly one left press and latches it |
| Mapper.Rotate | wiiMouse/Wiimote.cpp:721-742 | Minus then Plus is counting modulo 3 on a valid profile, stays in 0..2, and is the identity with neither pressed |
| Mapper.RotateWraps | wiiMouse/Wiimote.cpp:721-742 | Minus from Mouse wraps to FPS, Plus from FPS wraps to Mouse |
| Mapper.LedFor | wiiMouse/Wiimote.cpp:747-761 | each valid profile shows one single-bit LED disjoint from rumble; the profile/LED table is Mouse 0x10, Emulator 0x20, FPS 0x40 |
| Mapper.RotationFrames | wiiMouse/Wiimote.cpp:744-769 | exactly one LED frame iff Minus or Plus is down, and its LED nibble shows the resulting profile |
| Device.Configuration | wiiMouse/Wiimote.cpp:229-386 | after the confirmation each write is followed by one read, at least two exchanges, and the last buffer is the last reading |
| Device.Handshake | wiiMouse/Wiimote.cpp:162-387 | fails iff the first reading is not a 0x30 report, and then wrote only the mode frame and left the record alone; each write is followed by one read |
| Device.HandshakeExtensionExchanges | wiiMouse/Wiimote.cpp:309-384 | after confirmation, status and calibration are always requested, and the two extension exchanges happen iff the status reply reported an extension |
| Device.HandshakeKeepsLiveState | wiiMouse/Wiimote.cpp:212-386 | the handshake changes only presence, battery and calibration |
| Device.HandshakeWithExtension | wiiMouse/Wiimote.cpp:212-386 | a controller answering as prescribed, with an extension, ends with 5 writes, its battery and both calibration blocks stored |
| Device.HandshakeWithoutExtension | wiiMouse/Wiimote.cpp:212-307 | without an extension the handshake ends after 3 writes with the controller calibration stored |
| Device.SilentControllerFails | wiiMouse/Wiimote.cpp:215-227 | if no reply ever comes, the handshake fails after one write and one read |
| Device.Pass | wiiMouse/Wiimote.cpp:423-773 | one pass consumes one reading, counts one pass, and stops iff Home was seen now or before |
| Device.HomeStopsLoop | wiiMouse/Wiimote.cpp:771-773 | a running loop stops on a pass if and only if the report that pass decodes has Home down |
| Device.ALevels | wiiMouse/Wiimote.cpp:422-485 | the A level on each pass the loop ran: one level per pass |
| Device.EmuKeyARun | wiiMouse/Wiimote.cpp:422-529 | while the loop stays in the Emulator profile, the 'A' key events it sends are the edge fold of A's per-pass levels from the snapshot, and the snapshot ends at the last level |
| Device.MouseLeftRun | wiiMouse/Wiimote.cpp:422-462 | while the loop stays in the Mouse profile, its left-button clicks are the latch fold of A's per-pass levels, and the latch ends at the last level |
| Device.EmuHoldThenRelease | wiiMouse/Wiimote.cpp:422-529 | in the Emulator profile, A held for N >= 1 passes from released and then released sends exactly one 'A' down and one 'A' up |
| Device.EmuSteadyIsSilent | wiiMouse/Wiimote.cpp:422-529 | in the Emulator profile, A kept at its snapshot's level sends no 'A' over the whole run |
| Device.MouseHoldThenRelease | wiiMouse/Wiimote.cpp:422-462 | in the Mouse profile, A held for N >= 1 passes from released and then released presses and releases the left button exactly once |
| Device.MouseSteadyIsSilent | wiiMouse/Wiimote.cpp:422-462 | in the Mouse profile, A kept at the latch's level never clicks the left button over the whole run |
| Device.Passes | wiiMouse/Wiimote.cpp:422-773 | the loop never runs more passes than it has readings; what the loop does is stated by `PassesCount`, `HomeStopsLoop`, `StoppedIsFinal`, `EmuKeyARun` and `MouseLeftRun` |
| Device.PassesStep | wiiMouse/Wiimote.cpp:422-424 | a loop that has not stopped runs its next pass |
| Device.PassesCount | wiiMouse/Wiimote.cpp:771-773 | it ran one pass per reading or stopped; it stops only on a pass with Home; one reading per pass; it runs nothing once disconnected |
| Device.StoppedIsFinal | wiiMouse/Wiimote.cpp:771-773 | once Home has stopped the loop, further readings change nothing |
| Device.PassesKeepProfile | wiiMouse/Wiimote.cpp:721-742 | the profile index stays in 0..2 through every pass |
| Device.PassesExtendLogs | wiiMouse/Wiimote.cpp:422-773 | the input and frame logs only grow |
| Device.Wiimote.constructor | wiiMouse/Wiimote.cpp:25-60 | both buffers zeroed, record cleared; with a device found, the handshake runs and its verdict is the connection flag |
| Device.Wiimote.ClearPackets | wiiMouse/Wiimote.cpp:781-787 | both buffers are all zero and both success flags are false |
| Device.Wiimote.ReadPacket | wiiMouse/Wiimote.cpp:811-814 | the next reading lands in the read buffer and sets the success flag; a failed read leaves the buffer |
| Device.Wiimote.WritePacket | wiiMouse/Wiimote.cpp:818-821 | the write buffer is appended to the log and the flag is the transport's answer |
| Device.Wiimote.Receive | wiiMouse/Wiimote.cpp:831-832 | the read buffer holds the next reading (or zeros), the write buffer zeros, and one reading is consumed |
| Device.Wiimote.Transmit | wiiMouse/Wiimote.cpp:929-935 | the write buffer and the log's new frame are the command of the given bytes, the read buffer zeros |
| Device.Wiimote.UpdateButtonStates | wiiMouse/Wiimote.cpp:791-806 | the dpad and buttons become the word's decoding; nothing else changes |
| Device.Wiimote.DecodeReport | wiiMouse/Wiimote.cpp:833-921 | the record becomes ApplyReport of the read buffer and the read flag |
| Device.Wiimote.ParseReport | wiiMouse/Wiimote.cpp:825-922 | the record becomes ApplyReport of the next reading; buffers hold that reading and zeros |
| Device.Wiimote.SetReportMode | wiiMouse/Wiimote.cpp:927-938 | the write buffer and the log's new frame are [0x12, c, m] and zeros; the result is the write's success |
| Device.Wiimote.Rumble | wiiMouse/Wiimote.cpp:949-969 | rumbling becomes `on` and the written frame is [0x1a, on ? 1 : 0] and zeros |
| Device.Wiimote.EnableLED | wiiMouse/Wiimote.cpp:973-987 | the written frame is [0x11, mask with rumble bit if rumbling] and zeros |
| Device.Wiimote.RequestStatus | wiiMouse/Wiimote.cpp:231-260 | writes the status request and applies the next reading as a status reply |
| Device.Wiimote.CalibrateMote | wiiMouse/Wiimote.cpp:264-307 | writes the calibration request and applies the next reading as the controller calibration |
| Device.Wiimote.StoreChukCalibration | wiiMouse/Wiimote.cpp:353-383 | the record becomes ChukCalibrationUpdate of the read buffer |
| Device.Wiimote.CalibrateChuk | wiiMouse/Wiimote.cpp:311-384 | writes enable and calibration request, ignores the ack, applies the second reading as the nunchuk calibration |
| Device.Wiimote.RequestBasics | wiiMouse/Wiimote.cpp:229-307 | writes the status and calibration requests, applies their replies in order, and consumes two readings |
| Device.Wiimote.Configure | wiiMouse/Wiimote.cpp:229-386 | performs `Configuration` on the record and the remaining script |
| Device.Wiimote.Initialize | wiiMouse/Wiimote.cpp:162-387 | performs `Handshake` on the record and the script: same verdict, record, writes, reads and final buffers |
| Device.Wiimote.ShowProfile | wiiMouse/Wiimote.cpp:745-761 | writes the LED frame of the profile, LED_NONE for an invalid one, and changes neither the record, the script nor the input log |
| Device.Wiimote.RotateProfile | wiiMouse/Wiimote.cpp:720-769 | the new profile is `Rotate` of the old one, the frames written are `RotationFrames`, and the record, the script and the input log are unchanged |
| Device.Wiimote.Tick | wiiMouse/Wiimote.cpp:424-772 | one pass takes the object from a state to `Pass` of that state |
| Device.Wiimote.RunPasses | wiiMouse/Wiimote.cpp:422-773 | the loop ends in exactly the state `Passes` gives for its readings |
| Device.Wiimote.DebugLoop | wiiMouse/Wiimote.cpp:393-778 | mode frame (0x35 with an extension, else 0x31, continuous), LED one, then `Passes` over the horizon, then mode 0x30 once Home has stopped the loop |

## Left out

- Device discovery and the handle lifecycle (wiiMouse/Wiimote.cpp:45-59, 62-156) are SetupAPI and HID foreign calls. The constructor takes whether a device was found as a parameter. The manufacturer and product strings, the keyboard layout and the GUID are not modelled.
- `ReadFile` and `WriteFile` are replaced by the scripted transport. A read past the end of the script fails. A failed read leaves the buffer as it was, which the driver has always just cleared. Every write gets the same fixed answer, `writable`. `bytesTransferred` is not modelled.
- `KeyboardEvent` and `MouseEvent` (wiiMouse/Wiimote.cpp:1079-1115) call `SendInput` and `MapVirtualKeyEx`. They become appends to the event log. The scan code, the time stamp and the return value of `SendInput` are not modelled.
- The float math is not modelled. This covers `CalcTilt`, `CalcForce` and `CalcStick` (wiiMouse/Wiimote.cpp:991-1075), the mouse-move scaling (429-430, 556-557), and the FPS tilt and force threshold tests (619-665, 698-714). The model records which bytes each value was computed from. Each pass takes its truncated moves and threshold outcomes as free inputs, so their link to those bytes is not modelled.
- `Sleep(1000)` (wiiMouse/Wiimote.cpp:768) and every `printf` are left out; they have no effect on state.
- wiiMouse/WiiMouse.cpp is not part of this model. It only creates the object, runs the loop when connected, and deletes the object.
- The constructor leaves the nunchuk's calibration, axes, stick and buttons uninitialised (wiiMouse/Wiimote.cpp:31-43). The model starts them at zero and `Initial`.
- Device.Wiimote.DebugLoop: the source loop runs until Home. The model runs over a finite horizon of per-pass readings. When the horizon runs out before Home, the model returns without the final mode frame, a point the source never reaches.
- Device.EmuKeyARun and Device.MouseLeftRun carry the per-pass folds to the loop for the Emulator 'A' key and the Mouse left button. The other keys, the right button and the FPS profile follow the same per-pass shape and are not restated over the loop.
- Several methods are not in the source. `Configure`, `RequestBasics`, `RequestStatus`, `CalibrateMote`, `CalibrateChuk` and `StoreChukCalibration` split `Initialize` into its commented sections. `Receive` and `Transmit` are its repeated clear/read and clear/fill/write steps. `DecodeReport`, `RotateProfile` and `RunPasses` split `ParseReport` and `DebugLoop`. The bytes written and read, and their order, are the source's.
