# StreamDock device SDKs, modelled in Dafny

The StreamDock SDKs drive the Mirabox StreamDock family of USB HID control
decks (the 293, 293s, N1, N3, N4, N4Pro, M3, M18, XL and the K1Pro
keyboard). A deck has screen keys, and depending on the model also a
second screen, buttons, knobs, a swipe bar or toggle switches. It reports
each input as a short HID report carrying a hardware code and an event
byte, and it takes key images, backgrounds and commands over the same
transport. This project models the logic both SDKs put between the
application and the device, and proves properties of that model.

The Python SDK:

- `py_device`, `py_streamdock`: the base device class. This covers the
  key-callback slot, one step of the reader loop, the shutdown order, key
  clearing and the LED gating.
- `py_293`, `py_293s`, `py_m3`, `py_n3`, `py_n4pro`, `py_k1pro`, `py_xl`,
  `py_n1`, `py_bgr`: each model's image-key table and input decoder, the
  key-image routing, and the raw background byte order.
- `input_types`: the unified `InputEvent` with the checks it makes when it
  is built.
- `libusb_transport`: the transport wrapper's handle state.
- `py_device_manager`: the device manager's enumeration and hot-plug
  bookkeeping.

The C++ SDK:

- `cpp_streamdock`: the `StreamDock` base class and its checks in front of
  every write.
- `cpp_types`, `cpp_devices`, and one module per HotspotDevice class: each
  class's `_readValueMap` and `dispatchEvent`.
- `cpp_factory`: the factory and its registrations.
- `cpp_device_enumerator`, `cpp_device_manager`: the device enumerator and
  the device manager.
- `cpp_read_controller`: the read controller's worker step.
- `cpp_gif_controller`: the GIF controller's table and its frame-advance
  pass.
- `cpp_config_cmd`: the configuration command builder.
- `cpp_logger`: the logger and its queue.
- `cpp_transport_codes`: the transport's result-code layout.
- `cpp_gif_frames`, `cpp_raw_canvas`: GIF frame composition on a raw
  canvas.
- `cpp_image_encoder`, `cpp_img_helper`: the image encoder's integer
  geometry and the image helper.
- `cpp_sdk_n4`: the older SDK's N4 key transform.

Threads become single loop iterations. The transport becomes a log of the
commands handed to it, plus a can-write flag. Answers from native code,
image libraries and clocks are parameters.

Each key table is proved one-to-one and its inverse is proved to invert
it. Each dispatcher is characterised event by event. Each state-changing
method states the new value of every field it changes, and lemmas relate
it to the functions that specify it. Where the code does something its authors evidently did
not intend, the model keeps both forms: the code as written with a lemma
that exhibits the problem, and a corrected version that the rest of the
model uses (see "Findings").

## Model

| member | source | states |
|---|---|---|
| InputTypes.ButtonKeyOf | Python-SDK/src/StreamDock/InputTypes.py:21-60 | the enum lookup `ButtonKey(v)` succeeds exactly for 1..32 and then yields v; any other value raises |
| InputTypes.NewInputEvent | Python-SDK/src/StreamDock/InputTypes.py:91-109 | building an event succeeds exactly when the field checks of `__post_init__` hold, and then keeps every field as given |
| InputTypes.NormalizeState | Python-SDK/src/StreamDock/Devices/StreamDockN4Pro.py:71 | the normalised state is 0 or 1, and 1 exactly when the report's state byte is 0x01 |
| InputTypes.ButtonNeedsKey | Python-SDK/src/StreamDock/InputTypes.py:99-101 | a BUTTON event builds if and only if it has a key |
| InputTypes.KnobEventsNeedKnob | Python-SDK/src/StreamDock/InputTypes.py:102-106 | KNOB_PRESS builds iff a knob id is given; KNOB_ROTATE iff a knob id and a direction are given |
| InputTypes.SwipeNeedsDirection | Python-SDK/src/StreamDock/InputTypes.py:107-109 | a SWIPE event builds iff it has a direction |
| InputTypes.ShorthandsAreWellFormed | Python-SDK/src/StreamDock/InputTypes.py:91-95 | every keyword-argument form the decoders use passes the checks, rotate and swipe take the default state 0, and UNKNOWN builds with no fields |
| PyDevice.ReturnValue | Python-SDK/src/StreamDock/Devices/StreamDock293.py:105-131 | a key-image setter returns -1 when it rejects, and otherwise exactly the status its one transport call returns |
| PyDevice.RowSwapInvolution | Python-SDK/src/StreamDock/Devices/StreamDock293.py:20-36 | the row swap shared by the 15-key layouts undoes itself and keeps 1..15 inside 1..15 |
| PyBgr.FlatLength | Python-SDK/src/StreamDock/Devices/StreamDock293.py:91-95 | the packed background holds three bytes per pixel visited |
| PyBgr.FlatSlot | Python-SDK/src/StreamDock/Devices/StreamDock293.py:91-95 | the i-th pixel visited owns bytes 3i..3i+2 of the stream, in the order blue, green, red |
| PyBgr.RowMajorOffset | Python-SDK/src/StreamDock/Devices/StreamDock293.py:92-93 | walking rows top to bottom and x fastest, pixel (x, y) is the (y*width + x)-th visited, and that index lies inside the picture |
| PyBgr.ColumnMajorOffset | Python-SDK/src/StreamDock/Devices/StreamDock293s.py:93-94 | walking columns left to right and y fastest, pixel (x, y) is the (x*height + y)-th visited, inside the picture |
| Py293.GetImageKey | Python-SDK/src/StreamDock/Devices/StreamDock293.py:20-56 | the image table answers exactly for keys 1..15, with the row swap (1..5 to 11..15, 6..10 fixed, 11..15 to 1..5); other keys raise |
| Py293.HwToLogicalIsRowSwap | Python-SDK/src/StreamDock/Devices/StreamDock293.py:39 | the reverse table is defined exactly on hardware codes 1..15 and maps each through the row swap |
| Py293.DecodeInputEvent | Python-SDK/src/StreamDock/Devices/StreamDock293.py:64-76 | every decoded event passes the event checks, and it is either BUTTON or UNKNOWN |
| Py293.DecodeInvertsImageKey | Python-SDK/src/StreamDock/Devices/StreamDock293.py:39-73 | decoding the hardware key of logical key k gives BUTTON k with the normalised state; a code decodes as BUTTON iff it is in 1..15 |
| Py293.SetKeyImage | Python-SDK/src/StreamDock/Devices/StreamDock293.py:105-127 | a write happens iff the key is in 1..15, the file exists and it opens, converts and saves without raising; the write is `setKeyImg` in the key format at the row-swapped hardware key |
| Py293.SetKeyImageResult | Python-SDK/src/StreamDock/Devices/StreamDock293.py:105-127 | for a transport status other than -1, `set_key_image` returns -1 exactly when it is not the case that the key is in 1..15, the file exists and it opens, converts and saves, and otherwise the transport status itself |
| Py293.PackTouchscreenBgr | Python-SDK/src/StreamDock/Devices/StreamDock293.py:91-95 | the two nested loops build exactly the row-major BGR stream of all width*height pixels |
| Py293.SetTouchscreenImage | Python-SDK/src/StreamDock/Devices/StreamDock293.py:83-98 | a missing file, or one that raises while opening or converting, is rejected; otherwise the row-major BGR bytes are sent with size width*height*3, which is their length |
| Py293.TouchscreenPixelSlot | Python-SDK/src/StreamDock/Devices/StreamDock293.py:91-98 | in the background sent, pixel (x, y) occupies bytes 3(y*width + x) to 3(y*width + x)+2 as blue, green, red |
| Py293s.GetImageKey | Python-SDK/src/StreamDock/Devices/StreamDock293s.py:20-60 | the image table answers exactly for keys 1..18, moves main-screen key k to slot 13 + row - 3*column, keeps 16..18, and a result is 16 or above iff the key is |
| Py293s.HwToLogicalIsLayoutInverse | Python-SDK/src/StreamDock/Devices/StreamDock293s.py:43 | the reverse table is defined exactly on hardware codes 1..18 and follows the inverse layout |
| Py293s.ImageKeyRoundTrip | Python-SDK/src/StreamDock/Devices/StreamDock293s.py:20-43 | following a key to its slot and back through the reverse table gives the key again |
| Py293s.HwToLogicalIsInverse | Python-SDK/src/StreamDock/Devices/StreamDock293s.py:20-43 | the reverse table's codes are exactly the image table's values, and the layout functions are inverse on 1..18 |
| Py293s.DecodeInputEvent | Python-SDK/src/StreamDock/Devices/StreamDock293s.py:68-80 | every decoded event passes the event checks and is BUTTON or UNKNOWN |
| Py293s.DecodeInvertsImageKey | Python-SDK/src/StreamDock/Devices/StreamDock293s.py:43-77 | decoding the hardware key of logical key k gives BUTTON k; a code decodes as BUTTON iff it is in 1..18 |
| Py293s.SetKeyImage | Python-SDK/src/StreamDock/Devices/StreamDock293s.py:103-130 | a write happens iff the key is in 1..18, the file exists and it opens, converts and saves without raising; it goes to the key's slot, in the second-screen format exactly for keys 16..18 and the key format otherwise |
| Py293s.SetKeyImageResult | Python-SDK/src/StreamDock/Devices/StreamDock293s.py:103-130 | for a transport status other than -1, `set_key_image` returns -1 exactly when it is not the case that the key is in 1..18, the file exists and it opens, converts and saves, and otherwise the transport status itself |
| Py293s.PackTouchscreenBgr | Python-SDK/src/StreamDock/Devices/StreamDock293s.py:91-96 | the nested loops build exactly the column-major BGR stream of all width*height pixels |
| Py293s.SetTouchscreenImage | Python-SDK/src/StreamDock/Devices/StreamDock293s.py:87-100 | with no file check and no handler, a file that fails to open or convert raises out of the method; otherwise the column-major BGR bytes are sent, with size width*height*3 equal to their length, and nothing is rejected |
| Py293s.TouchscreenPixelSlot | Python-SDK/src/StreamDock/Devices/StreamDock293s.py:93-100 | in the background sent, pixel (x, y) occupies bytes 3(x*height + y) to 3(x*height + y)+2 as blue, green, red |
| PyM3.GetImageKey | Python-SDK/src/StreamDock/Devices/StreamDockM3.py:19-55 | the image table answers exactly for keys 1..15, with the same row swap as the 293; other keys raise |
| PyM3.HwToLogicalIsRowSwap | Python-SDK/src/StreamDock/Devices/StreamDockM3.py:38 | the reverse table is defined exactly on hardware codes 1..15 and maps each through the row swap |
| PyM3.DecodeInputEvent | Python-SDK/src/StreamDock/Devices/StreamDockM3.py:63-75 | every decoded event passes the event checks and is BUTTON or UNKNOWN |
| PyM3.DecodeInvertsImageKey | Python-SDK/src/StreamDock/Devices/StreamDockM3.py:38-72 | decoding the hardware key of logical key k gives BUTTON k; a code is a BUTTON iff it is in 1..15 |
| PyM3.SetKeyImage | Python-SDK/src/StreamDock/Devices/StreamDockM3.py:110-140 | a write happens iff the key is in 1..15, the file exists and it opens, converts and saves without raising; the write is `setKeyImgDualDevice` at the row-swapped hardware key |
| PyM3.SetKeyImageResult | Python-SDK/src/StreamDock/Devices/StreamDockM3.py:110-140 | for a transport status other than -1, `set_key_image` returns -1 exactly when it is not the case that the key is in 1..15, the file exists and it opens, converts and saves, and otherwise the transport status itself |
| PyXL.KeyMappingIsRowReversal | Python-SDK/src/StreamDock/Devices/StreamDockXL.py:9-42 | `KEY_MAPPING` is defined on exactly 1..32 and sends key k in row (k-1)/8 to the same column of row 3-(k-1)/8 |
| PyXL.Key | Python-SDK/src/StreamDock/Devices/StreamDockXL.py:48-52 | `key()` sends 1..32 into 1..32 and returns every other value unchanged |
| PyXL.KeyKeepsColumn | Python-SDK/src/StreamDock/Devices/StreamDockXL.py:9-52 | a mapped key keeps its column and has its row mirrored |
| PyXL.KeyIsInvolution | Python-SDK/src/StreamDock/Devices/StreamDockXL.py:9-52 | `key()` is its own inverse on every integer, so it is a bijection of 1..32 |
| PyXL.SetKeyImage | Python-SDK/src/StreamDock/Devices/StreamDockXL.py:91-111 | the range check is on the key as given: a write happens iff it is in 1..32 and the image opens, and it goes to `setKeyImgDualDevice` under the mapped key |
| PyXL.SetKeyImageResult | Python-SDK/src/StreamDock/Devices/StreamDockXL.py:91-111 | for a transport status other than -1, `set_key_image` returns -1 exactly when it is not the case that the key is in 1..32 and the image opens, and otherwise the transport status itself |
| PyStreamDock.DecodeInputEvent | Python-SDK/src/StreamDock/Devices/StreamDock.py:342-354 | whichever model decodes, the event passes the `InputEvent` checks |
| PyStreamDock.StreamDock.constructor | Python-SDK/src/StreamDock/Devices/StreamDock.py:65-77 | a new device has no callback, no reader, no effects, and the default feature options |
| PyStreamDock.StreamDock.SetFeatures | Python-SDK/src/StreamDock/Devices/StreamDockXL.py:142-145 | `set_device` sets the device type, the RGB flag and the LED count (the XL: RGB with six LEDs) and changes nothing else |
| PyStreamDock.StreamDock.SetKeyCallback | Python-SDK/src/StreamDock/Devices/StreamDock.py:438-465 | the single slot is overwritten with the new callback, so the last writer wins; nothing else changes |
| PyStreamDock.StreamDock.Open | Python-SDK/src/StreamDock/Devices/StreamDock.py:131-137 | the transport is opened, a reader still marked live is stopped and joined (the source joins any reader it ever started, finished or not, which is the same since joining a finished thread does nothing), a new reader is started whatever the transport reported, and that report is returned |
| PyStreamDock.StreamDock.Close | Python-SDK/src/StreamDock/Devices/StreamDock.py:170-205 | the run flag is cleared, a live reader is joined, then disconnect and transport close happen in that order even when either fails, and the callback is cleared last |
| PyStreamDock.StreamDock.ReadStep | Python-SDK/src/StreamDock/Devices/StreamDock.py:366-408 | one pass of the reader calls the snapshotted callback with the decoded event exactly when the flag is set, the report decodes and a callback is set; a failing callback changes nothing else |
| PyStreamDock.StreamDock.ClearIcon | Python-SDK/src/StreamDock/Devices/StreamDock.py:214-221 | an index outside 1..KEY_COUNT gives -1 with no transport call; otherwise the key's hardware number is cleared, unless the image-key lookup raises |
| PyStreamDock.StreamDock.SetLedBrightnessIfSupported | Python-SDK/src/StreamDock/Devices/StreamDock.py:155-157 | the brightness reaches the transport exactly when the device has RGB LEDs |
| PyStreamDock.StreamDock.SetLedColorIfSupported | Python-SDK/src/StreamDock/Devices/StreamDock.py:160-162 | the colour reaches the transport, together with the device's LED count, exactly when the device has RGB LEDs |
| PyStreamDock.StreamDock.ResetLedEffectIfSupported | Python-SDK/src/StreamDock/Devices/StreamDock.py:165-167 | the reset reaches the transport exactly when the device has RGB LEDs |
| PyStreamDock.ShortAndAckReportsIgnored | Python-SDK/src/StreamDock/Devices/StreamDock.py:371-374 | a report shorter than 10 bytes, or one whose byte 9 is 0xFF, yields no event |
| PyStreamDock.ReportOffsets | Python-SDK/src/StreamDock/Devices/StreamDock.py:378-381 | bytes 9 and 10 are decoded, except on the K1Pro device type, where bytes 10 and 11 are |
| PyStreamDock.DeliveredEventsAreWellFormed | Python-SDK/src/StreamDock/Devices/StreamDock.py:376-390 | every event handed to a callback passes the `InputEvent` checks |
| PyStreamDock.CallbackLifecycle | Python-SDK/src/StreamDock/Devices/StreamDock.py:170-205 | of two callbacks set in turn only the second receives events, and after close no event reaches any callback |
| PyN4Pro.GetImageKey | Python-SDK/src/StreamDock/Devices/StreamDockN4Pro.py:19-57 | the image table answers exactly for keys 1..15: KEY_1..5 to 11..15, KEY_6..10 to themselves, KEY_11..15 to 1..5; other keys raise ValueError |
| PyN4Pro.ImageKeyMapIsRowSwap | Python-SDK/src/StreamDock/Devices/StreamDockN4Pro.py:19-37 | the image table is defined on exactly 1..15 and is the row swap there |
| PyN4Pro.HwToLogicalIsRowSwap | Python-SDK/src/StreamDock/Devices/StreamDockN4Pro.py:40 | the reverse table is defined on exactly 1..15 and is the row swap too |
| PyN4Pro.HwToLogicalIsInverse | Python-SDK/src/StreamDock/Devices/StreamDockN4Pro.py:19-40 | the reverse table's codes are the image table's values, and each table undoes the other in both directions |
| PyN4Pro.DecodeInputEvent | Python-SDK/src/StreamDock/Devices/StreamDockN4Pro.py:59-135 | every decoded event passes the `InputEvent` checks |
| PyN4Pro.DecodeInvertsImageKey | Python-SDK/src/StreamDock/Devices/StreamDockN4Pro.py:71-79 | the hardware code of key k decodes to BUTTON k, pressed iff the state byte is 0x01 |
| PyN4Pro.DecodeButtonIff | Python-SDK/src/StreamDock/Devices/StreamDockN4Pro.py:74-93 | a code decodes to BUTTON iff it is in 1..15 or 0x40..0x43, and 0x40..0x43 give KEY_11..14 with the normalised state |
| PyN4Pro.DecodeRotation | Python-SDK/src/StreamDock/Devices/StreamDockN4Pro.py:96-112 | each rotation code gives the same KNOB_ROTATE whatever the state byte; the even code turns left and the odd one right |
| PyN4Pro.DecodeKinds | Python-SDK/src/StreamDock/Devices/StreamDockN4Pro.py:96-135 | KNOB_PRESS iff the code is 0x37/0x35/0x33/0x36, SWIPE iff 0x38/0x39, KNOB_ROTATE iff a rotation code, and UNKNOWN iff the code is in no table |
| PyN4Pro.SecondScreenCodeAliasesKey11 | Python-SDK/src/StreamDock/Devices/StreamDockN4Pro.py:32-91 | hardware code 0x01 and second-screen code 0x40 both decode to KEY_11 |
| PyN4Pro.SetSecondScreenImage | Python-SDK/src/StreamDock/Devices/StreamDockN4Pro.py:210-236 | a write happens iff the key is in 11..14, the file exists and it opens, converts and saves without raising; the write is `setKeyImgDualDevice` in the second-screen format at hardware key k-10 |
| PyN4Pro.SetKeyImage | Python-SDK/src/StreamDock/Devices/StreamDockN4Pro.py:169-203 | a write happens iff the key is in 1..15, the file exists and it opens, converts and saves without raising; it goes to the key's hardware number, in the second-screen format exactly for keys 11..14 |
| PyN4Pro.SetKeyImageResult | Python-SDK/src/StreamDock/Devices/StreamDockN4Pro.py:169-203 | for a transport status other than -1, `set_key_image` returns -1 exactly when it is not the case that the key is in 1..15, the file exists and it opens, converts and saves, and otherwise the transport status itself |
| PyK1Pro.GetImageKey | Python-SDK/src/StreamDock/Devices/K1Pro.py:19-46 | the image table answers exactly for KEY_1..6, sending keys 1..3 to the odd slots 5, 3, 1 and keys 4..6 to the even slots 6, 4, 2; other keys raise ValueError |
| PyK1Pro.SlotLayoutIsBijection | Python-SDK/src/StreamDock/Devices/K1Pro.py:19-26 | the slot layout is a bijection of 1..6 onto itself, undone by the inverse layout in both directions |
| PyK1Pro.HwToLogicalIsKeyOfSlot | Python-SDK/src/StreamDock/Devices/K1Pro.py:29 | the reverse table is defined on exactly 1..6 and follows the inverse layout |
| PyK1Pro.HwToLogicalIsInverse | Python-SDK/src/StreamDock/Devices/K1Pro.py:19-29 | the reverse table's codes are the image table's values, and it takes each key's slot back to the key |
| PyK1Pro.DecodeInputEvent | Python-SDK/src/StreamDock/Devices/K1Pro.py:48-101 | every decoded event passes the `InputEvent` checks |
| PyK1Pro.DecodeInvertsImageKey | Python-SDK/src/StreamDock/Devices/K1Pro.py:62-70 | the slot of key k decodes to BUTTON k with the normalised state |
| PyK1Pro.DecodeKinds | Python-SDK/src/StreamDock/Devices/K1Pro.py:65-101 | BUTTON iff the code is in 1..6, KNOB_PRESS iff 0x25/0x30/0x31, KNOB_ROTATE iff 0x50/51/60/61/90/91, and UNKNOWN iff the code is in no table |
| PyK1Pro.DecodeKnobs | Python-SDK/src/StreamDock/Devices/K1Pro.py:73-98 | knob presses carry the normalised state; rotations do not depend on the state byte and turn right on the odd code, left on the even one |
| PyK1Pro.SetTouchscreenImage | Python-SDK/src/StreamDock/Devices/K1Pro.py:107-109 | background images are not supported: nothing is sent and the result is 0 |
| PyK1Pro.SetKeyImage | Python-SDK/src/StreamDock/Devices/K1Pro.py:112-142 | a write happens iff the key is in 1..6, the file exists and it opens, converts and saves without raising; the write is `setKeyImgDualDevice` in the key format at the key's slot |
| PyK1Pro.SetKeyImageResult | Python-SDK/src/StreamDock/Devices/K1Pro.py:112-142 | for a transport status other than -1, `set_key_image` returns -1 exactly when it is not the case that the key is in 1..6, the file exists and it opens, converts and saves, and otherwise the transport status itself |
| PyK1Pro.SetKeyboardLightingEffects | Python-SDK/src/StreamDock/Devices/K1Pro.py:188-197 | the effect is always the last call; effect 0, and only effect 0, is preceded by setting the speed to 0 |
| PyN3.GetImageKey | Python-SDK/src/StreamDock/Devices/StreamDockN3.py:19-51 | keys 1..9 are answered, and only they; the six screen keys map to themselves and keys 7..9 to the button codes 0x25, 0x30, 0x31; other keys raise ValueError |
| PyN3.HwToLogicalIsInverse | Python-SDK/src/StreamDock/Devices/StreamDockN3.py:19-32 | the reverse table's codes are exactly the image table's values, and it takes each key's code back to the key |
| PyN3.DecodeInputEvent | Python-SDK/src/StreamDock/Devices/StreamDockN3.py:53-101 | every decoded event passes the `InputEvent` checks |
| PyN3.DecodeInvertsImageKey | Python-SDK/src/StreamDock/Devices/StreamDockN3.py:65-71 | the hardware code of key k decodes to BUTTON k with the normalised state |
| PyN3.DecodeKinds | Python-SDK/src/StreamDock/Devices/StreamDockN3.py:63-101 | BUTTON iff the code is 1..6 or 0x25/0x30/0x31, KNOB_ROTATE iff 0x90/91/60/61/50/51, KNOB_PRESS iff 0x33/34/35, UNKNOWN iff the code is in no table |
| PyN3.DecodeKnobEvents | Python-SDK/src/StreamDock/Devices/StreamDockN3.py:73-99 | a rotate code gives KNOB_ROTATE of the knob and direction its table entry names, whatever the state byte; a press code gives KNOB_PRESS of its knob with the normalised state |
| PyN3.KnobCodes | Python-SDK/src/StreamDock/Devices/StreamDockN3.py:73-99 | 0x90/0x91 rotate knob 1 left/right, 0x60/0x61 knob 2, 0x50/0x51 knob 3; 0x33, 0x34, 0x35 press knobs 1, 2, 3 |
| PyN3.SetKeyImage | Python-SDK/src/StreamDock/Devices/StreamDockN3.py:136-170 | a write happens iff the key is one of the six screen keys, the file exists and it opens, converts and saves without raising; the write is `setKeyImgDualDevice` at the key's own number |
| PyN3.SetKeyImageResult | Python-SDK/src/StreamDock/Devices/StreamDockN3.py:136-170 | for a transport status other than -1, `set_key_image` returns -1 exactly when it is not the case that the key is in 1..6, the file exists and it opens, converts and saves, and otherwise the transport status itself |
| PyN3.ButtonsAndHighKeysNeverWrite | Python-SDK/src/StreamDock/Devices/StreamDockN3.py:138-155 | keys 7..18 pass the range check but are never written: 10..18 fail the image table and 7..9 map outside 1..9 |
| PyN1.ExtractLastNumber | Python-SDK/src/StreamDock/Devices/StreamDockN1.py:10-38 | the loop returns the number spelled by the run of digits right after the last dot, stopping at the first non-digit, or None |
| PyN1.LastNumberNone | Python-SDK/src/StreamDock/Devices/StreamDockN1.py:20-38 | the result is None iff there is no dot, the last dot ends the string, or the character after it is not a digit |
| PyN1.DigitPrefixStopsAtNonDigit | Python-SDK/src/StreamDock/Devices/StreamDockN1.py:27-32 | what follows the first non-digit never joins the digit run |
| PyN1.SerialExample | Python-SDK/src/StreamDock/Devices/StreamDockN1.py:15 | the documented serial "N3.02.013" yields 13 |
| PyN1.SerialWithSuffixExample | Python-SDK/src/StreamDock/Devices/StreamDockN1.py:15 | the documented serial "N3.02.013V2" also yields 13: the suffix after the digits is ignored |
| PyN1.SetTouchscreenImage | Python-SDK/src/StreamDock/Devices/StreamDockN1.py:55-81 | -1 when the serial has no number, or (firmware 13 and later) when the file is missing or raises while opening, converting or saving; the background write iff firmware is 13 or later and the file exists and opens; no return value exactly for earlier firmware |
| PyN1.SetKeyImage | Python-SDK/src/StreamDock/Devices/StreamDockN1.py:84-103 | a write happens iff the file exists, the key is in 1..18 and the file opens, converts and saves without raising; it is `setKeyImgDualDevice` at the key's own number, in the second-screen format iff the key is 16..18 |
| PyN1.SetKeyImageResult | Python-SDK/src/StreamDock/Devices/StreamDockN1.py:84-103 | for a transport status other than -1, `set_key_image` returns -1 exactly when it is not the case that the key is in 1..18, the file exists and it opens, converts and saves, and otherwise the transport status itself |
| PyDeviceManager.LastSegment | Python-SDK/src/StreamDock/DeviceManager.py:176 | `split('/')[-1]` holds no slash, ends the path, and is preceded by a slash unless it is the whole path |
| PyDeviceManager.InterfaceSuffix | Python-SDK/src/StreamDock/DeviceManager.py:176-177 | the suffix the `add` handler looks for always ends in `:1.0` |
| PyDeviceManager.ParseHexAccepts | Python-SDK/src/StreamDock/DeviceManager.py:167-171 | `int(s, 16)` succeeds iff s is a non-empty run of hexadecimal digits, and the value has at most that many digits |
| PyDeviceManager.ProductDocksAt | Python-SDK/src/StreamDock/DeviceManager.py:43-47 | `enumerate` makes the k-th entry of a product into a new device of that product's class with the entry's path |
| PyDeviceManager.AllDocksIds | Python-SDK/src/StreamDock/DeviceManager.py:39-48 | the devices `enumerate` creates have consecutive, hence distinct, identities, and each is built on a transport of its own |
| PyDeviceManager.FirstMatch | Python-SDK/src/StreamDock/DeviceManager.py:228-238 | the entry found is the first one the match accepts; none found means no entry is accepted |
| PyDeviceManager.AdditionDocksMatch | Python-SDK/src/StreamDock/DeviceManager.py:228-238 | every device an addition handler appends has a path the match accepts, a new identity, and the manager's shared transport |
| PyDeviceManager.AdditionDocksNone | Python-SDK/src/StreamDock/DeviceManager.py:228-238 | when no considered product lists a matching entry, nothing is appended |
| PyDeviceManager.AddMissingFacts | Python-SDK/src/StreamDock/DeviceManager.py:193-203 | the Windows addition keeps the devices present before as the list's prefix, leaves every enumerated path present, numbers new devices consecutively and builds them on the manager's shared transport |
| PyDeviceManager.FoundPathsMembers | Python-SDK/src/StreamDock/DeviceManager.py:118-121 | a path is collected iff some product enumerates an entry with it |
| PyDeviceManager.WithoutPath | Python-SDK/src/StreamDock/DeviceManager.py:240-248 | polling removal keeps exactly the devices whose path differs |
| PyDeviceManager.StillPresent | Python-SDK/src/StreamDock/DeviceManager.py:217-224 | the Windows removal keeps exactly the devices whose path is still enumerated |
| PyDeviceManager.FirstContained | Python-SDK/src/StreamDock/DeviceManager.py:155-159 | the device found is the first whose path occurs in the udev path; none found means no device path occurs there |
| PyDeviceManager.RemoveContainingDropsOne | Python-SDK/src/StreamDock/DeviceManager.py:154-159 | a udev `remove` drops exactly the first device whose path the udev path contains, or nothing |
| PyDeviceManager.AppendFresh | Python-SDK/src/StreamDock/DeviceManager.py:233 | appending a device with the next identity keeps identities distinct |
| PyDeviceManager.SameIdSameDock | Python-SDK/src/StreamDock/DeviceManager.py:222-224 | with distinct identities, `list.remove` of an object names exactly one device |
| PyDeviceManager.RemoveFirstOfDistinct | Python-SDK/src/StreamDock/DeviceManager.py:222-224 | `list.remove` of one more collected device is removing one more identity |
| PyDeviceManager.RemoveAtKeepsIds | Python-SDK/src/StreamDock/DeviceManager.py:158 | `list.remove` of the device at a position drops that position alone |
| PyDeviceManager.FindMatch | Python-SDK/src/StreamDock/DeviceManager.py:228-238 | the inner search returns the first matching entry's index, or the length when none matches |
| PyDeviceManager.FindContaining | Python-SDK/src/StreamDock/DeviceManager.py:155-159 | the search returns the first device whose path occurs in the udev path, or the length |
| PyDeviceManager.CollectWithPath | Python-SDK/src/StreamDock/DeviceManager.py:242-245 | the collected devices are exactly those with the path |
| PyDeviceManager.CollectMissing | Python-SDK/src/StreamDock/DeviceManager.py:217-220 | the collected devices are exactly those whose path is no longer enumerated |
| PyDeviceManager.CollectPaths | Python-SDK/src/StreamDock/DeviceManager.py:118-121 | the collected set is every enumerated path of every product |
| PyDeviceManager.HasPathLoop | Python-SDK/src/StreamDock/DeviceManager.py:198 | `any(...)` is true iff some device has the path |
| PyDeviceManager.DeviceManager.Enumerate | Python-SDK/src/StreamDock/DeviceManager.py:34-48 | the list is cleared and refilled with one device per entry, product by product, with distinct identities and a transport each of their own; none is opened |
| PyDeviceManager.DeviceManager.AddProductDocks | Python-SDK/src/StreamDock/DeviceManager.py:43-47 | one new device per entry of one product, appended in order |
| PyDeviceManager.DeviceManager.AddFirstMatches | Python-SDK/src/StreamDock/DeviceManager.py:173-189 | for every considered product the first matching entry becomes a device that is appended and opened; `break` leaves only the inner loop |
| PyDeviceManager.DeviceManager.HandleDeviceAddition | Python-SDK/src/StreamDock/DeviceManager.py:226-238 | each product's first entry with exactly this path is appended and opened |
| PyDeviceManager.DeviceManager.HandleDeviceEvent | Python-SDK/src/StreamDock/DeviceManager.py:149-189 | other actions change nothing; `remove` drops the first device whose path the udev path contains; `add` with missing or non-hex ids changes nothing, otherwise each product with those ids opens its first entry ending with the last segment plus `:1.0` |
| PyDeviceManager.DeviceManager.RemoveFirstContaining | Python-SDK/src/StreamDock/DeviceManager.py:154-159 | the first device whose path occurs in the udev path leaves the list |
| PyDeviceManager.DeviceManager.PollOnce | Python-SDK/src/StreamDock/DeviceManager.py:123-147 | a scan whose enumeration raises leaves the list, the open log, the identities and `current_devices` as they were; otherwise the next `current_devices` is the set the scan found, and the list becomes the old list followed by what `_handle_device_addition` appends for each new path in turn, in some order that lists each new path once, each call seeing its own fresh enumeration, with every device of a vanished path then dropped; the open log grows by exactly the appended devices; each new device has a newly found path and the shared transport |
| PyDeviceManager.DeviceManager.AddPolled | Python-SDK/src/StreamDock/DeviceManager.py:131-135 | the addition loop visits each new path exactly once, and the list and the open log each grow by the devices the addition handler creates for those paths in visiting order, the k-th call from the k-th enumeration it makes |
| PyDeviceManager.DeviceManager.RemovePolled | Python-SDK/src/StreamDock/DeviceManager.py:137-140 | the removal loop drops exactly the devices whose path vanished, keeping the others in order |
| PyDeviceManager.WithoutPaths | Python-SDK/src/StreamDock/DeviceManager.py:137-140 | the devices kept are exactly those whose path is not among the vanished ones |
| PyDeviceManager.WithoutPathsStep | Python-SDK/src/StreamDock/DeviceManager.py:240-248 | removing the vanished paths one handler call at a time gives the same list as removing them all at once |
| PyDeviceManager.PolledAdditionsPaths | Python-SDK/src/StreamDock/DeviceManager.py:226-238 | every device the polling additions create has one of the new paths, a new identity and the shared transport |
| PyDeviceManager.PolledAdditionsGone | Python-SDK/src/StreamDock/DeviceManager.py:226-238 | a path that the handler call's own enumeration no longer lists adds no device, even though the pass's scan saw it |
| PyDeviceManager.DeviceManager.RemoveDevices | Python-SDK/src/StreamDock/DeviceManager.py:222-224 | `list.remove` of every collected device drops exactly their identities |
| PyDeviceManager.DeviceManager.HandleDeviceRemoval | Python-SDK/src/StreamDock/DeviceManager.py:240-248 | every device with the path leaves the list and none is closed |
| PyDeviceManager.DeviceManager.CheckRemovedDevicesWindows | Python-SDK/src/StreamDock/DeviceManager.py:208-224 | every device whose path is no longer enumerated leaves the list and none is closed |
| PyDeviceManager.DeviceManager.CheckNewDevicesWindows | Python-SDK/src/StreamDock/DeviceManager.py:191-203 | every enumerated path no device has yet gets a new device, appended and opened; the old devices stay first |
| PyDeviceManager.DeviceManager.AddMissingForProduct | Python-SDK/src/StreamDock/DeviceManager.py:195-203 | the inner loop for one product appends and opens a device for each entry whose path is not yet present |
| LibUsbTransport.LibUsbHidApi.constructor | Python-SDK/src/StreamDock/Transport/LibUSBHIDAPI.py:288-301 | a new wrapper has no handle, is not open, and has report sizes 0 |
| LibUsbTransport.LibUsbHidApi.Open | Python-SDK/src/StreamDock/Transport/LibUSBHIDAPI.py:857-895 | refused while open or while a handle exists; succeeds iff the handle is created, storing it and setting the open flag; a failure changes nothing |
| LibUsbTransport.LibUsbHidApi.Close | Python-SDK/src/StreamDock/Transport/LibUSBHIDAPI.py:897-910 | with a handle, destroys it once and clears both handle and flag; without one, changes nothing, so the flag can stay set |
| LibUsbTransport.LibUsbHidApi.CloseResettingFlag | Python-SDK/src/StreamDock/Transport/LibUSBHIDAPI.py:897-910 | the corrected close: no handle and not open afterwards on every path, with any handle destroyed once |
| LibUsbTransport.LibUsbHidApi.Exit | Python-SDK/src/StreamDock/Transport/LibUSBHIDAPI.py:306-319 | `__exit__` (through `__del__`) destroys the handle but leaves the open flag as it was |
| LibUsbTransport.LibUsbHidApi.SetReportSize | Python-SDK/src/StreamDock/Transport/LibUSBHIDAPI.py:637-657 | without a handle nothing changes; with one the three sizes are stored |
| LibUsbTransport.LibUsbHidApi.CanWrite | Python-SDK/src/StreamDock/Transport/LibUSBHIDAPI.py:361-376 | true iff there is a handle, the native query succeeds, and it reports writable |
| LibUsbTransport.LibUsbHidApi.ReadReport | Python-SDK/src/StreamDock/Transport/LibUSBHIDAPI.py:912-968 | bytes iff there is a handle, the native read succeeds and at least one byte arrived; then exactly the first `length` bytes |
| LibUsbTransport.LibUsbHidApi.GetFirmwareVersion | Python-SDK/src/StreamDock/Transport/LibUSBHIDAPI.py:323-353 | "" without a handle or on a native error; otherwise the first non-empty piece of the buffer split at NUL bytes |
| LibUsbTransport.SplitAtNul | Python-SDK/src/StreamDock/Transport/LibUSBHIDAPI.py:342 | splitting at NUL bytes yields at least one piece |
| LibUsbTransport.FirstSegmentOfSplit | Python-SDK/src/StreamDock/Transport/LibUSBHIDAPI.py:342-351 | the first non-empty split piece is the first maximal run of non-NUL bytes |
| LibUsbTransport.InterfaceZero | Python-SDK/src/StreamDock/Transport/LibUSBHIDAPI.py:778-814 | the kept entries are exactly the interface-0 entries, in enumeration order |
| LibUsbTransport.EnumerateDevices | Python-SDK/src/StreamDock/Transport/LibUSBHIDAPI.py:757-815 | the walk over the native list returns the interface-0 entries |
| LibUsbTransport.ExitThenCloseBlocksReopen | Python-SDK/src/StreamDock/Transport/LibUSBHIDAPI.py:897-910 | after `__exit__` on an open transport, `close` leaves the flag set and the next `open` is refused |
| LibUsbTransport.ExitThenCloseAllowsReopen | Python-SDK/src/StreamDock/Transport/LibUSBHIDAPI.py:897-910 | with the flag cleared on close the same sequence opens again (corrected; see Findings) |
| CppTypes.EventCode | CPP-SDK/src/DeviceInfo/streamdockinfo.h:58-71 | `EveryThing` is 0xFF and only it; every other event is 0x01..0x0A |
| CppTypes.EventCodeInjective | CPP-SDK/src/DeviceInfo/streamdockinfo.h:58-71 | no two `RegisterEvent` enumerators share a value |
| CppTypes.DefaultInfo | CPP-SDK/src/DeviceInfo/streamdockinfo.h:32-55 | a default `StreamDockInfo` has unknown origin, key range 0..0, JPG encodings and the BGR888 background format |
| CppTypes.DefaultFeature | CPP-SDK/src/DeviceInfo/featureoption.h:13-28 | a default `FeatureOption` has every flag off and every count zero |
| CppTypes.InverseDistinct | CPP-SDK/src/DeviceInfo/streamdock.h:277 | a read-value table that has an inverse reports distinct bytes, and its bytes are the inverse's keys |
| CppTypes.MapsToUnique | CPP-SDK/src/DeviceInfo/streamdock.h:277 | with distinct reported bytes, a byte stands for at most one logical key |
| CppConfigCmd.StateByte | CPP-SDK/src/DeviceInfo/streamdockconfigcmd.h:58-63 | `Default` and `On` are sent as 0x11, `Off` as 0xFF, `Follow` as 0x1F |
| CppConfigCmd.OnIsDefault | CPP-SDK/src/DeviceInfo/streamdockconfigcmd.h:59-60 | switching an item on sends the same byte as leaving it at its default |
| CppConfigCmd.LastChange | CPP-SDK/src/DeviceInfo/streamdockconfigcmd.h:106-111 | the state of the last change that names the item, or none when no change names it |
| CppConfigCmd.BuildConfigCommand | CPP-SDK/src/DeviceInfo/streamdockconfigcmd.h:88-94 | `count` bytes: the chosen item at its state and every other item at the default |
| CppConfigCmd.BuildConfigCommandBatch | CPP-SDK/src/DeviceInfo/streamdockconfigcmd.h:102-113 | `count` bytes, each item at the state of the last change naming it, or at the default |
| CppConfigCmd.OutOfRangeIgnored | CPP-SDK/src/DeviceInfo/streamdockconfigcmd.h:107-110 | changes past the end of the vector make no difference |
| CppConfigCmd.SingleIsBatch | CPP-SDK/src/DeviceInfo/streamdockconfigcmd.h:88-113 | the single form gives the same bytes as the batch form with one change |
| CppDevices.ConstructedFeature | CPP-SDK/src/HotspotDevice/StreamDockN3V25/streamdockN3V25.cpp:89-116 | after construction only the N3V25 has switched its features, by the mode its firmware names; every other class keeps the constructor's assignments |
| CppDevices.TablesDistinct | CPP-SDK/src/HotspotDevice/StreamDockN4Pro/streamdockN4Pro.cpp:70-81 | in every one of the thirteen classes no two logical keys share a reported byte, so the reverse lookup of the read loop is unambiguous |
| CppDevices.InfoWellFormed | CPP-SDK/src/HotspotDevice/StreamDockN4Pro/streamdockN4Pro.cpp:42-59 | every class fills in a non-empty main key range, a known origin type, and the descriptor's vendor, product and serial, leaving the firmware version unset |
| CppDevices.InfoFirmwareUnset | CPP-SDK/src/HotspotDevice/StreamDockN4Pro/streamdockN4Pro.cpp:42-59 | no constructor fills in the firmware version |
| CppDevices.SecondScreenDisjoint | CPP-SDK/src/HotspotDevice/StreamDockN4Pro/streamdockN4Pro.cpp:55-67 | a class with a second screen has an ordered second-screen key range disjoint from its main keys |
| CppDevices.IndexAt | CPP-SDK/src/HotspotDevice/StreamDockN4Pro/streamdockN4Pro.cpp:4-8 | the position table lists each registered pair at its own position |
| CppDevices.RegistrationsDistinct | CPP-SDK/src/HotspotDevice/StreamDockN4Pro/streamdockN4Pro.cpp:4-40 | the twenty-two (vendor, product) pairs the classes register are pairwise distinct |
| CppDevices.Construct | CPP-SDK/src/HotspotDevice/StreamDockN4Pro/streamdockN4Pro.cpp:12-25 | a creator builds a fresh device with the class's table, info and (for the N3V25, firmware-switched) features, then `init` gives it a read controller and the RGB, GIF and config controllers its features call for, and `initImgHelper` its key and background helpers and the second-screen and GIF helpers iff the features have them |
| CppDevices.N3V25Generations | CPP-SDK/src/HotspotDevice/StreamDockN3V25/streamdockN3V25.cpp:89-116 | V25 firmware leaves a single-image device; any other firmware keeps the dual image; background GIFs are off either way |
| CppFactory.RegisterAllSnoc | CPP-SDK/src/DeviceInfo/streamdockfactory.cpp:9-12 | one more registration is one more overwrite of its pair: the last one for a pair wins |
| CppFactory.RegisterAllContents | CPP-SDK/src/DeviceInfo/streamdockfactory.cpp:9-12 | with distinct pairs the table holds exactly the earlier and the registered pairs, each registered pair mapped to its class and every other pair unchanged |
| CppFactory.StreamDockFactory.constructor | CPP-SDK/src/DeviceInfo/streamdockfactory.h:101-102 | the factory starts with an empty table |
| CppFactory.StreamDockFactory.RegisterDevice | CPP-SDK/src/DeviceInfo/streamdockfactory.cpp:9-12 | the pair now maps to the class, replacing any earlier creator |
| CppFactory.StreamDockFactory.Create | CPP-SDK/src/DeviceInfo/streamdockfactory.cpp:19-27 | null iff the pair was never registered; otherwise the fresh device the registered class's creator builds |
| CppFactory.StreamDockFactory.RegisterDevices | CPP-SDK/src/DeviceInfo/streamdockfactory.cpp:9-12 | the static registrations run in order give `RegisterAll` of the table |
| CppFactory.FactoryTable | CPP-SDK/src/HotspotDevice/StreamDockN4Pro/streamdockN4Pro.cpp:10-40 | after the static registrations exactly the registered pairs exist, each naming its own class |
| CppFactory.RegistrationOrderIrrelevant | CPP-SDK/src/DeviceInfo/streamdockfactory.cpp:9-12 | with distinct pairs the order the initialisers run in does not change the table |
| CppDeviceEnumerator.KeyBitLayout | CPP-SDK/src/DeviceManager/DeviceEnumerator/deviceenumerator.cpp:65 | `(uint32_t(vid) << 16) \| pid` is the sum `vid * 2^16 + pid` |
| CppDeviceEnumerator.VidPidKeySplit | CPP-SDK/src/DeviceManager/DeviceEnumerator/deviceenumerator.cpp:65 | the combined key fits 32 bits and splits back into the vendor id (high half) and the product id (low half) |
| CppDeviceEnumerator.VidPidKeyInjective | CPP-SDK/src/DeviceManager/DeviceEnumerator/deviceenumerator.cpp:65 | two (vendor, product) pairs share a key only when they are the same pair |
| CppDeviceEnumerator.PathIndexKeys | CPP-SDK/src/DeviceManager/DeviceEnumerator/deviceenumerator.cpp:63 | the path index holds exactly the listed paths |
| CppDeviceEnumerator.PathIndexLast | CPP-SDK/src/DeviceManager/DeviceEnumerator/deviceenumerator.cpp:63 | each path names the last device listed under it |
| CppDeviceEnumerator.KeyIndexStep | CPP-SDK/src/DeviceManager/DeviceEnumerator/deviceenumerator.cpp:65-66 | listing one more device adds its index under its own key and nowhere else |
| CppDeviceEnumerator.KeyIndexFilter | CPP-SDK/src/DeviceManager/DeviceEnumerator/deviceenumerator.cpp:58-69 | under each key the multimap keeps exactly the devices with that key |
| CppDeviceEnumerator.FilterExact | CPP-SDK/src/DeviceManager/DeviceEnumerator/deviceenumerator.cpp:112-127 | `find_by_vidpid` reports a device iff it is listed with that vendor and product id |
| CppDeviceEnumerator.Send | CPP-SDK/src/DeviceManager/DeviceEnumerator/deviceenumerator.cpp:142-151 | false for an unknown path or empty data; true only after a write with a non-negative result; a write goes only through a live handle; an error iff the stored handle was freed; and conversely, for a known path with data and a live or successfully opened handle, the result is whether `hid_write` returned a non-negative value and the handle is live |
| CppDeviceEnumerator.Open | CPP-SDK/src/DeviceManager/DeviceEnumerator/deviceenumerator.cpp:129-134 | the stored handle is present iff `hid_open_path` succeeded; other paths keep theirs |
| CppDeviceEnumerator.CloseAsWritten | CPP-SDK/src/DeviceManager/DeviceEnumerator/deviceenumerator.cpp:136-140 | `hid_close` frees the handle but leaves it stored; closing a freed handle is an error (a double free) |
| CppDeviceEnumerator.Close | CPP-SDK/src/DeviceManager/DeviceEnumerator/deviceenumerator.cpp:136-140 | the corrected close removes the path's handle and keeps every other one |
| CppDeviceEnumerator.NoDanglingPreserved | CPP-SDK/src/DeviceManager/DeviceEnumerator/deviceenumerator.cpp:129-151 | with the corrected close, opening, closing and sending never leave a freed handle, and sending never fails on one |
| CppDeviceEnumerator.CloseThenSendAsWritten | CPP-SDK/src/DeviceManager/DeviceEnumerator/deviceenumerator.cpp:136-150 | open, close as written, then send: the write goes to the freed handle |
| CppDeviceEnumerator.CloseThenSendReopens | CPP-SDK/src/DeviceManager/DeviceEnumerator/deviceenumerator.cpp:142-150 | open, corrected close, then send: `send_to_path` opens the device again and writes |
| CppDeviceEnumerator.DeviceEnumerator.constructor | CPP-SDK/src/DeviceManager/DeviceEnumerator/deviceenumerator.cpp:40-43 | an enumerator starts with no devices, no handles and no writes |
| CppDeviceEnumerator.DeviceEnumerator.Enumerate | CPP-SDK/src/DeviceManager/DeviceEnumerator/deviceenumerator.cpp:49-69 | the list and both indexes are cleared and refilled from the enumeration, in order, with no handles |
| CppDeviceEnumerator.DeviceEnumerator.FindByPath | CPP-SDK/src/DeviceManager/DeviceEnumerator/deviceenumerator.cpp:106-110 | null iff no listed device has the path; otherwise the last device listed under it |
| CppDeviceEnumerator.DeviceEnumerator.FindByVidPid | CPP-SDK/src/DeviceManager/DeviceEnumerator/deviceenumerator.cpp:112-127 | exactly the listed devices with that vendor and product id |
| CppDeviceEnumerator.DeviceEnumerator.OpenDevice | CPP-SDK/src/DeviceManager/DeviceEnumerator/deviceenumerator.cpp:129-134 | an unknown path is a null dereference (error); otherwise the handle is what `hid_open_path` returned |
| CppDeviceEnumerator.DeviceEnumerator.CloseDevice | CPP-SDK/src/DeviceManager/DeviceEnumerator/deviceenumerator.cpp:136-140 | an unknown path is a null dereference (error); otherwise the corrected close |
| CppDeviceEnumerator.DeviceEnumerator.SendToPath | CPP-SDK/src/DeviceManager/DeviceEnumerator/deviceenumerator.cpp:142-151 | the result, the handles and the write log follow `Send` (corrected; see Findings) |
| CppDeviceManager.AcceptedPathsSnoc | CPP-SDK/src/DeviceManager/devicemanager_mac.cpp:41-49 | one more listed device adds its path to the accepted set iff it is registered and on the vendor usage |
| CppDeviceManager.AdoptedSnoc | CPP-SDK/src/DeviceManager/devicemanager.cpp:17-35 | one more listed device is adopted iff it passes the filter and its path is neither held nor already adopted |
| CppDeviceManager.AdoptedKeys | CPP-SDK/src/DeviceManager/devicemanager.cpp:17-35 | `enumerator` adds exactly the accepted paths the table did not hold, each under its own path, each device accepted |
| CppDeviceManager.AdoptedFirst | CPP-SDK/src/DeviceManager/devicemanager.cpp:23-24 | of several accepted devices listed under one path, the first is kept |
| CppDeviceManager.EnumeratorIdempotent | CPP-SDK/src/DeviceManager/devicemanager.cpp:13-38 | a second `enumerator` over the same devices adds nothing |
| CppDeviceManager.ListenerInSync | CPP-SDK/src/DeviceManager/devicemanager_mac.cpp:30-114 | when table and listener agree and the device list is stable, after a pass the table holds exactly the accepted paths |
| CppDeviceManager.RemovedLeave | CPP-SDK/src/DeviceManager/devicemanager_mac.cpp:61-86 | a path the devices no longer show leaves the table in that pass |
| CppDeviceManager.DeviceManager.constructor | CPP-SDK/src/DeviceManager/devicemanager.cpp:7-11 | an empty table that is not listening |
| CppDeviceManager.DeviceManager.Enumerator | CPP-SDK/src/DeviceManager/devicemanager.cpp:13-38 | re-enumerates; held devices stay as they are; every adopted path gets a device built by the factory with its firmware version written into its description |
| CppDeviceManager.DeviceManager.AdoptDevice | CPP-SDK/src/DeviceManager/devicemanager.cpp:19-34 | one pass of the loop: an accepted device with a new path is built, given its firmware version and stored |
| CppDeviceManager.DeviceManager.BuildDock | CPP-SDK/src/DeviceManager/devicemanager.cpp:25-33 | null iff the pair is unregistered; otherwise a fresh device built as `create` states, its firmware version read back |
| CppDeviceManager.DeviceManager.Listen | CPP-SDK/src/DeviceManager/devicemanager_mac.cpp:10-25 | the listener is on and starts from the paths the table holds |
| CppDeviceManager.DeviceManager.StopListen | CPP-SDK/src/DeviceManager/devicemanager_mac.cpp:134-139 | the listening flag is cleared |
| CppDeviceManager.DeviceManager.PollCycle | CPP-SDK/src/DeviceManager/devicemanager_mac.cpp:30-114 | the accepted paths become current; vanished paths are dropped; `enumerator` runs iff some path is new, and the enumerator then holds the second listing (otherwise the first); every device it adopts is freshly built from its listing entry; the callback receives each new path the table holds once, and only those |
| CppDeviceManager.DeviceManager.ScanAccepted | CPP-SDK/src/DeviceManager/devicemanager_mac.cpp:39-49 | the scan yields exactly the paths of the accepted devices |
| CppDeviceManager.DeviceManager.Announce | CPP-SDK/src/DeviceManager/devicemanager_mac.cpp:95-110 | each added path the table holds goes to the callback exactly once, when there is a callback |
| CppReadController.Resize | CPP-SDK/src/DeviceInfo/Feature/ReadController/readcontroller.cpp:31 | `resize` keeps the first n bytes and pads with zeros |
| CppReadController.Response | CPP-SDK/src/DeviceInfo/Feature/ReadController/readcontroller.cpp:26-44 | a positive length gives exactly that many bytes, the buffer's first ones; any other length gives nothing |
| CppReadController.HeadersExclusive | CPP-SDK/src/DeviceInfo/Feature/ReadController/readcontroller.cpp:126 | the K1Pro header and the other header cannot both match one report |
| CppReadController.FirstMatch | CPP-SDK/src/DeviceInfo/Feature/ReadController/readcontroller.cpp:135-143 | the key found reports the byte and comes first in iteration order; no key reporting it gives 0xFF |
| CppReadController.FirstMatchUnique | CPP-SDK/src/DeviceInfo/Feature/ReadController/readcontroller.cpp:135-145 | with distinct codes and no key 0xFF, the lookup finds nothing iff no key reports the byte, and otherwise the one key that does |
| CppReadController.FirstMatchOrderIndependent | CPP-SDK/src/DeviceInfo/Feature/ReadController/readcontroller.cpp:136 | with distinct codes, every iteration order of the unordered map gives the same key |
| CppReadController.ReverseLookup | CPP-SDK/src/DeviceInfo/Feature/ReadController/readcontroller.cpp:134-143 | the scan returns the first key in iteration order reporting the byte, or 0xFF |
| CppReadController.Registered | CPP-SDK/src/DeviceInfo/Feature/ReadController/readcontroller.cpp:150-164 | at most one callback, present iff a non-null callback is registered for that key and event |
| CppReadController.KeyInvocations | CPP-SDK/src/DeviceInfo/Feature/ReadController/readcontroller.cpp:149-173 | the exact-match callback, then the key's `EveryThing` one, with the second lookup skipped when the event is `EveryThing` itself (corrected; see Findings) |
| CppReadController.RawInvocations | CPP-SDK/src/DeviceInfo/Feature/ReadController/readcontroller.cpp:113-123 | the raw callback, when one is set, gets the whole report |
| CppReadController.ReportInvocations | CPP-SDK/src/DeviceInfo/Feature/ReadController/readcontroller.cpp:106-173 | a report under 64 bytes runs nothing; with a bad header only the raw callback runs; otherwise raw, then key callbacks for the key found (corrected; see Findings) |
| CppReadController.AllReportsAppend | CPP-SDK/src/DeviceInfo/Feature/ReadController/readcontroller.cpp:92-174 | one more report adds exactly its own callbacks after those of the earlier reports |
| CppReadController.LoopRun | CPP-SDK/src/DeviceInfo/Feature/ReadController/readcontroller.cpp:92-107 | the loop takes at most as many reads as it is given |
| CppReadController.LoopRunAt | CPP-SDK/src/DeviceInfo/Feature/ReadController/readcontroller.cpp:99-107 | while the transport can write, a -1 read stops the run and any other read is handed on |
| CppReadController.LoopRunStops | CPP-SDK/src/DeviceInfo/Feature/ReadController/readcontroller.cpp:92-107 | the loop keeps running iff the transport can write and no read was -1; otherwise it took every read up to the first -1, or none when the transport could not write |
| CppReadController.JoinWorker | CPP-SDK/src/DeviceInfo/Feature/ReadController/readcontroller.cpp:184-190 | joining the worker from the worker itself is the error `resource_deadlock_would_occur` |
| CppReadController.ReadAsWritten | CPP-SDK/src/DeviceInfo/Feature/ReadController/readcontroller.cpp:17-45 | a read other than -1 returns the response; a -1 read fails exactly when called on the worker thread |
| CppReadController.ReadController.constructor | CPP-SDK/src/DeviceInfo/Feature/ReadController/readcontroller.cpp:6-10 | the worker is running, the loop not yet enabled, and no callback is registered |
| CppReadController.ReadController.RegisterReadCallback | CPP-SDK/src/DeviceInfo/Feature/ReadController/readcontroller.cpp:47-51 | the key and event now map to the callback, replacing any earlier one |
| CppReadController.ReadController.UnregisterReadCallback | CPP-SDK/src/DeviceInfo/Feature/ReadController/readcontroller.cpp:53-57 | the key and event no longer have a callback |
| CppReadController.ReadController.RegisterRawReadCallback | CPP-SDK/src/DeviceInfo/Feature/ReadController/readcontroller.cpp:59-63 | the raw callback is set |
| CppReadController.ReadController.UnregisterRawReadCallback | CPP-SDK/src/DeviceInfo/Feature/ReadController/readcontroller.cpp:65-69 | the raw callback is cleared to null |
| CppReadController.ReadController.StartReadLoop | CPP-SDK/src/DeviceInfo/Feature/ReadController/readcontroller.cpp:71-78 | the loop is enabled |
| CppReadController.ReadController.StopReadLoop | CPP-SDK/src/DeviceInfo/Feature/ReadController/readcontroller.cpp:80-86 | the loop is disabled |
| CppReadController.ReadController.Process | CPP-SDK/src/DeviceInfo/Feature/ReadController/readcontroller.cpp:106-173 | one report runs exactly the callbacks `ReportInvocations` names (corrected; see Findings) |
| CppReadController.ReadController.RunKeyCallbacks | CPP-SDK/src/DeviceInfo/Feature/ReadController/readcontroller.cpp:149-173 | the callbacks run are `KeyInvocations` |
| CppReadController.ReadController.Read | CPP-SDK/src/DeviceInfo/Feature/ReadController/readcontroller.cpp:17-45 | the result is `ReadAsWritten`, and a -1 read stops the worker |
| CppReadController.ReadController.ReadOnWorker | CPP-SDK/src/DeviceInfo/Feature/ReadController/readcontroller.cpp:17-45 | the corrected read returns the response and a -1 read only clears the running flag |
| CppReadController.ReadController.Iteration | CPP-SDK/src/DeviceInfo/Feature/ReadController/readcontroller.cpp:105-173 | one read: -1 stops and runs nothing; otherwise the response is handed on and its callbacks run (corrected; see Findings) |
| CppReadController.ReadController.RunLoop | CPP-SDK/src/DeviceInfo/Feature/ReadController/readcontroller.cpp:88-176 | fed a run of reads, the loop runs the callbacks of every report `LoopRun` hands on and stops where `LoopRun` stops; a stopped worker runs nothing (corrected; see Findings) |
| CppReadController.EveryThingRunsTwice | CPP-SDK/src/DeviceInfo/Feature/ReadController/readcontroller.cpp:150-172 | as written, an event the device does not classify runs the key's `EveryThing` callback twice |
| CppReadController.EachCallbackOnce | CPP-SDK/src/DeviceInfo/Feature/ReadController/readcontroller.cpp:150-172 | the corrected lookup runs each callback at most once per report and differs only for `EveryThing` |
| CppReadController.N3KnobPressUnclassified | CPP-SDK/src/DeviceInfo/Feature/ReadController/readcontroller.cpp:134-147 | on an N3V25 a knob-1 press (code 0x33, event 1) is found as key 10 and dispatched as `EveryThing` |
| CppReadController.DisconnectOnWorkerThrows | CPP-SDK/src/DeviceInfo/Feature/ReadController/readcontroller.cpp:35-39 | as written, the loop's own read seeing a disconnect ends in the join's exception |
| CppReadController.DisconnectStopsLoop | CPP-SDK/src/DeviceInfo/Feature/ReadController/readcontroller.cpp:92-107 | with the stop done in place, a disconnect ends the loop after one read with nothing handed on (corrected; see Findings) |
| CppGifController.ToU16 | CPP-SDK/src/DeviceInfo/Feature/GifController/gifcontroller.cpp:92 | an `int16_t` placement stored in a `uint16_t` field keeps non-negative values and wraps negative ones up by 2^16 |
| CppGifController.ToI16 | CPP-SDK/src/DeviceInfo/Feature/GifController/gifcontroller.cpp:123 | a `uint16_t` passed as `int16_t` keeps values below 2^15 and wraps the rest down by 2^16 |
| CppGifController.PlacementRoundTrip | CPP-SDK/src/DeviceInfo/Feature/GifController/gifcontroller.cpp:111-124 | the two conversions are inverse, so the byte overload's unsigned `x` reaches the field unchanged |
| CppGifController.Start | CPP-SDK/src/DeviceInfo/Feature/GifController/gifcontroller.cpp:42-52 | a new entry holds the given frames and delays, shows frame 0 and has gathered no time |
| CppGifController.SplitDecoded | CPP-SDK/src/DeviceInfo/Feature/GifController/gifcontroller.cpp:30-39 | the decoded frames split into one frame and one delay each, in order, starting at frame 0 |
| CppGifController.AdvanceAsWritten | CPP-SDK/src/DeviceInfo/Feature/GifController/gifcontroller.cpp:212-229 | the unchecked delay read fails exactly when a busy entry's frame has no delay |
| CppGifController.Advance | CPP-SDK/src/DeviceInfo/Feature/GifController/gifcontroller.h:57-63 | one worker pass over an entry keeps its frames and delays; it moves (wrapping) iff the gathered time reaches the frame's delay in microseconds, and the remainder is kept exactly; idle entries are untouched (corrected; see Findings) |
| CppGifController.AdvanceAgrees | CPP-SDK/src/DeviceInfo/Feature/GifController/gifcontroller.cpp:212-229 | wherever the as-written read is in bounds, it computes the corrected step |
| CppGifController.Run | CPP-SDK/src/DeviceInfo/Feature/GifController/gifcontroller.cpp:181-263 | any run of passes keeps frames and delays and keeps the frame on show among the frames |
| CppGifController.CoveredNeverOverruns | CPP-SDK/src/DeviceInfo/Feature/GifController/gifcontroller.cpp:219 | with at least one delay per frame the as-written run never reads out of bounds and equals the corrected run |
| CppGifController.ShortDelaysOverrun | CPP-SDK/src/DeviceInfo/Feature/GifController/gifcontroller.cpp:212-229 | a two-frame stream given one delay reads past the delays on the second pass |
| CppGifController.AdvanceEntry | CPP-SDK/src/DeviceInfo/Feature/GifController/gifcontroller.cpp:212-229 | phase one's body for one entry computes `Advance` (corrected; see Findings) |
| CppGifController.AdvanceAll | CPP-SDK/src/DeviceInfo/Feature/GifController/gifcontroller.cpp:207-231 | phase one keeps the table's indices and frames, and every collected pair names an existing frame (corrected; see Findings) |
| CppGifController.AdvanceAllTable | CPP-SDK/src/DeviceInfo/Feature/GifController/gifcontroller.cpp:210-230 | after phase one each walked entry is its advanced self and every other entry is unchanged (corrected; see Findings) |
| CppGifController.AdvanceAllSound | CPP-SDK/src/DeviceInfo/Feature/GifController/gifcontroller.cpp:222-228 | every collected pair is a walked entry that moved, with its new frame (corrected; see Findings) |
| CppGifController.AdvanceAllComplete | CPP-SDK/src/DeviceInfo/Feature/GifController/gifcontroller.cpp:222-228 | every walked entry that moved has its pair collected (corrected; see Findings) |
| CppGifController.AdvanceAllDistinct | CPP-SDK/src/DeviceInfo/Feature/GifController/gifcontroller.cpp:207-228 | no index is collected twice (corrected; see Findings) |
| CppGifController.BackgroundFrameCommands | CPP-SDK/src/DeviceInfo/Feature/GifController/gifcontroller.cpp:287-305 | a background frame is sent iff the transport writes, the device is dual with background animations, and the frame is JPEG; it is then the one frame-stream command |
| CppGifController.FrameCommand | CPP-SDK/src/DeviceInfo/Feature/GifController/gifcontroller.cpp:239-254 | a non-zero index sends its frame as that key's image; index 0 sends a background frame only when the animation fits inside the background; missing or empty entries send nothing |
| CppGifController.FrameCommands | CPP-SDK/src/DeviceInfo/Feature/GifController/gifcontroller.cpp:237-255 | phase two sends at most one command per collected pair, and none on a transport that cannot write |
| CppGifController.IndexZeroIsBackground | CPP-SDK/src/DeviceInfo/Feature/GifController/gifcontroller.cpp:245-254 | a command for index 0 is always a background frame placed inside the background |
| CppGifController.GifController.constructor | CPP-SDK/src/DeviceInfo/Feature/GifController/gifcontroller.cpp:5-9 | an empty table, placement (0, 0), the loop disabled and running; the worker stays alive only on a writable dual device |
| CppGifController.GifController.SetKeyGifFile | CPP-SDK/src/DeviceInfo/Feature/GifController/gifcontroller.cpp:16-43 | an in-range key on a writable dual device gets the decoded frames as a fresh entry; otherwise the table is unchanged |
| CppGifController.GifController.SetKeyGifStream | CPP-SDK/src/DeviceInfo/Feature/GifController/gifcontroller.cpp:45-70 | on a writable dual device the key's entry is replaced by a fresh one with the given frames and delays, without a range check; otherwise nothing changes |
| CppGifController.GifController.SetBackgroundGifFile | CPP-SDK/src/DeviceInfo/Feature/GifController/gifcontroller.cpp:72-96 | with background animations allowed, index 0 gets the decoded frames and the placement is stored with `x` wrapped; otherwise nothing changes |
| CppGifController.GifController.SetBackgroundGifStream | CPP-SDK/src/DeviceInfo/Feature/GifController/gifcontroller.cpp:98-109 | with background animations allowed, index 0 gets the given frames and the placement is stored; otherwise nothing changes |
| CppGifController.GifController.SetBackgroundGifStreamBytes | CPP-SDK/src/DeviceInfo/Feature/GifController/gifcontroller.cpp:111-125 | the byte overload forwards to the signed one, and the stored `x` equals the one given |
| CppGifController.GifController.SetBackgroundGifFileFrame | CPP-SDK/src/DeviceInfo/Feature/GifController/gifcontroller.cpp:287-305 | the log grows by exactly `BackgroundFrameCommands` |
| CppGifController.GifController.ClearBackgroundGifStream | CPP-SDK/src/DeviceInfo/Feature/GifController/gifcontroller.cpp:127-133 | with background animations allowed one clear command for the position is sent; the table is unchanged |
| CppGifController.GifController.ClearKeyGif | CPP-SDK/src/DeviceInfo/Feature/GifController/gifcontroller.cpp:135-144 | on a writable dual device the key's entry is removed and every other stays |
| CppGifController.GifController.ClearBackgroundGif | CPP-SDK/src/DeviceInfo/Feature/GifController/gifcontroller.cpp:146-155 | on a writable dual device the background entry is removed and every key's stays |
| CppGifController.GifController.StartGifLoop | CPP-SDK/src/DeviceInfo/Feature/GifController/gifcontroller.cpp:157-164 | the loop becomes enabled on a writable dual device and otherwise keeps its state |
| CppGifController.GifController.StopGifLoop | CPP-SDK/src/DeviceInfo/Feature/GifController/gifcontroller.cpp:166-172 | the loop becomes disabled on a writable dual device and otherwise keeps its state |
| CppGifController.GifController.StopWorkerThread | CPP-SDK/src/DeviceInfo/Feature/GifController/gifcontroller.cpp:278-284 | the stop flag is cleared and the worker has ended |
| CppGifController.GifController.Tick | CPP-SDK/src/DeviceInfo/Feature/GifController/gifcontroller.cpp:181-263 | a blocked worker changes nothing; a transport that cannot write stops the worker; an empty table changes nothing; otherwise the table becomes phase one's result and the log grows by phase two's commands and one refresh if any pair was collected (corrected; see Findings) |
| CppGifController.GifController.AdvanceEntries | CPP-SDK/src/DeviceInfo/Feature/GifController/gifcontroller.cpp:207-231 | the loop over the table computes `AdvanceAll`, both table and pairs (corrected; see Findings) |
| CppGifController.GifController.SendFrame | CPP-SDK/src/DeviceInfo/Feature/GifController/gifcontroller.cpp:239-254 | the log grows by `FrameCommand` for the pair |
| CppGifController.GifController.SendFrames | CPP-SDK/src/DeviceInfo/Feature/GifController/gifcontroller.cpp:234-256 | the loop over the pairs grows the log by `FrameCommands` |
| CppGifFrames.DelayMs | CPP-SDK/ImgProcesser/src/Gif2ImgFrame/Gif2ImgFrame.cpp:320-321 | the delay is the GIF's hundredths times ten, truncated to 16 bits, and 100 when that is 0; never 0 |
| CppGifFrames.DelayRange | CPP-SDK/ImgProcesser/src/Gif2ImgFrame/Gif2ImgFrame.cpp:320-321 | an unset delay shows 100 ms, up to 6553 hundredths the delay is exact, and longer delays wrap (6554 gives 4 ms) |
| CppGifFrames.DisposalFor | CPP-SDK/ImgProcesser/src/Gif2ImgFrame/Gif2ImgFrame.cpp:326-336 | frame 0 is rendered with `DISPOSE_DO_NOT`, frame i with the mode frame i-1 declares |
| CppGifFrames.ColorMapOf | CPP-SDK/ImgProcesser/src/Gif2ImgFrame/Gif2ImgFrame.cpp:50 | the image's own colour map is used when present, else the global one |
| CppGifFrames.RasterIndex | CPP-SDK/ImgProcesser/src/Gif2ImgFrame/Gif2ImgFrame.cpp:85 | the raster index `y * Width + x` of a pixel in the image rectangle is inside the raster |
| CppGifFrames.ClearedPixel | CPP-SDK/ImgProcesser/src/Gif2ImgFrame/Gif2ImgFrame.cpp:68-70 | a cleared pixel has every channel 0 |
| CppGifFrames.ColorPixel | CPP-SDK/ImgProcesser/src/Gif2ImgFrame/Gif2ImgFrame.cpp:99-114 | a colour is stored blue, green, red, then 255 when there is alpha |
| CppGifFrames.Blank | CPP-SDK/ImgProcesser/src/Gif2ImgFrame/Gif2ImgFrame.cpp:255 | the starting canvas has the screen's shape |
| CppGifFrames.BlankIsNewCanvas | CPP-SDK/ImgProcesser/src/Gif2ImgFrame/Gif2ImgFrame.cpp:255 | the blank canvas flattens to exactly the zero-filled buffer of a new `RawCanvas` |
| CppGifFrames.Disposed | CPP-SDK/ImgProcesser/src/Gif2ImgFrame/Gif2ImgFrame.cpp:59-77 | the first pass keeps the canvas shape |
| CppGifFrames.Drawn | CPP-SDK/ImgProcesser/src/Gif2ImgFrame/Gif2ImgFrame.cpp:79-117 | the second pass keeps the canvas shape |
| CppGifFrames.Rendered | CPP-SDK/ImgProcesser/src/Gif2ImgFrame/Gif2ImgFrame.cpp:46-118 | rendering a frame keeps the canvas shape |
| CppGifFrames.RenderedShaped | CPP-SDK/ImgProcesser/src/Gif2ImgFrame/Gif2ImgFrame.cpp:46-118 | a screen-sized canvas stays screen-sized |
| CppGifFrames.RenderedPixel | CPP-SDK/ImgProcesser/src/Gif2ImgFrame/Gif2ImgFrame.cpp:50-117 | per pixel: outside the rectangle or without a colour map nothing changes; an opaque index writes its colour in BGR (alpha 255); a transparent index keeps the first pass's pixel, except with alpha on an image disposing to background, where it is cleared |
| CppGifFrames.PreviousLikeDoNot | CPP-SDK/ImgProcesser/src/Gif2ImgFrame/Gif2ImgFrame.cpp:57-77 | as written `DISPOSE_PREVIOUS` renders exactly like `DISPOSE_DO_NOT` |
| CppGifFrames.ClearRect | CPP-SDK/ImgProcesser/src/Gif2ImgFrame/Gif2ImgFrame.cpp:59-73 | the clearing loops compute the first pass for `DISPOSE_BACKGROUND` |
| CppGifFrames.DrawRect | CPP-SDK/ImgProcesser/src/Gif2ImgFrame/Gif2ImgFrame.cpp:79-117 | the drawing loops compute the second pass |
| CppGifFrames.RenderFrameRaw | CPP-SDK/ImgProcesser/src/Gif2ImgFrame/Gif2ImgFrame.cpp:46-118 | `renderFrameRaw` computes `Rendered` |
| CppGifFrames.CanvasShaped | CPP-SDK/ImgProcesser/src/Gif2ImgFrame/Gif2ImgFrame.cpp:310-340 | both compositions keep the screen's shape frame after frame, and so do the canvases the corrected one starts each image from and draws it over |
| CppGifFrames.CanvasAfterStep | CPP-SDK/ImgProcesser/src/Gif2ImgFrame/Gif2ImgFrame.cpp:57-117 | the next corrected canvas is image i's second pass over the canvas image i is drawn over; that canvas is, after a `DISPOSE_PREVIOUS` image, the canvas that image was drawn over, and otherwise the last canvas, cleared in image i's rectangle for `DISPOSE_BACKGROUND` when there is a colour map (corrected; see Findings) |
| CppGifFrames.PreviousRestores | CPP-SDK/ImgProcesser/src/Gif2ImgFrame/Gif2ImgFrame.cpp:57-77 | after an image that declared `DISPOSE_PREVIOUS` the next one is drawn over exactly the canvas that image was drawn over, so the composed canvas is the next image rendered onto it (corrected; see Findings) |
| CppGifFrames.SecondDrawnOverCleared | CPP-SDK/ImgProcesser/src/Gif2ImgFrame/Gif2ImgFrame.cpp:57-77 | when image 0 declared `DISPOSE_PREVIOUS` or `DISPOSE_BACKGROUND`, image 1 is drawn over a cleared pixel wherever it covers the screen: the blank canvas image 0 was drawn over, or image 0 cleared (corrected; see Findings) |
| CppGifFrames.ThirdAfterPreviousCleared | CPP-SDK/ImgProcesser/src/Gif2ImgFrame/Gif2ImgFrame.cpp:57-109 | without alpha, when image 1 declared `DISPOSE_PREVIOUS` after such an image 0, a transparent pixel of image 2 shows black (corrected; see Findings) |
| CppGifFrames.ThreeImagesLastFrame | CPP-SDK/ImgProcesser/src/Gif2ImgFrame/Gif2ImgFrame.cpp:57-117 | on a one-pixel GIF of red (declaring `DISPOSE_PREVIOUS` or `DISPOSE_BACKGROUND`), green (declaring `DISPOSE_PREVIOUS`) and a transparent image, the last frame is green as written and black with the canvas restored |
| CppGifFrames.TwoPreviousInARow | CPP-SDK/ImgProcesser/src/Gif2ImgFrame/Gif2ImgFrame.cpp:57-77 | after two `DISPOSE_PREVIOUS` images in a row the next frame is restored to the blank canvas the first was drawn over (corrected; see Findings) |
| CppGifFrames.PreviousAfterBackground | CPP-SDK/ImgProcesser/src/Gif2ImgFrame/Gif2ImgFrame.cpp:57-77 | after `DISPOSE_PREVIOUS` following `DISPOSE_BACKGROUND` the next frame is restored to the cleared canvas (corrected; see Findings) |
| CppGifFrames.AgreeWithoutPrevious | CPP-SDK/ImgProcesser/src/Gif2ImgFrame/Gif2ImgFrame.cpp:310-340 | with no `DISPOSE_PREVIOUS` image the as-written and corrected canvases agree |
| CppGifFrames.FirstFrameColor | CPP-SDK/ImgProcesser/src/Gif2ImgFrame/Gif2ImgFrame.cpp:99-104 | an opaque pixel of frame 0 shows its colour in BGR order, in both compositions |
| CppGifFrames.TransparentAfterPrevious | CPP-SDK/ImgProcesser/src/Gif2ImgFrame/Gif2ImgFrame.cpp:57-109 | without alpha, a transparent pixel after a `DISPOSE_PREVIOUS` frame shows, as written, that frame's pixel, but the blank pixel when the canvas is restored |
| CppGifFrames.ExampleFacts | CPP-SDK/ImgProcesser/src/Gif2ImgFrame/Gif2ImgFrame.cpp:46-118 | the one-pixel example GIF is renderable, red in frame 0 with `DISPOSE_PREVIOUS`, transparent in frame 1 |
| CppGifFrames.StaysRed | CPP-SDK/ImgProcesser/src/Gif2ImgFrame/Gif2ImgFrame.cpp:74-109 | as written, frame 1 of the example still shows red |
| CppGifFrames.TurnsBlack | CPP-SDK/ImgProcesser/src/Gif2ImgFrame/Gif2ImgFrame.cpp:74-109 | with the canvas restored, frame 1 of the example shows black (corrected; see Findings) |
| CppGifFrames.PreviousIgnored | CPP-SDK/ImgProcesser/src/Gif2ImgFrame/Gif2ImgFrame.cpp:74-77 | on the example GIF the as-written result and the restored result differ |
| CppGifFrames.Composed | CPP-SDK/ImgProcesser/src/Gif2ImgFrame/Gif2ImgFrame.cpp:310-340 | one composed canvas and one delay per image, in order (corrected; see Findings) |
| CppGifFrames.ComposedAsWritten | CPP-SDK/ImgProcesser/src/Gif2ImgFrame/Gif2ImgFrame.cpp:310-340 | as written, one composed canvas and one delay per image, in order |
| CppGifFrames.ComposedAgreeWithoutPrevious | CPP-SDK/ImgProcesser/src/Gif2ImgFrame/Gif2ImgFrame.cpp:310-340 | with no `DISPOSE_PREVIOUS` image both compositions give the same frames |
| CppGifFrames.EncodeAll | CPP-SDK/ImgProcesser/src/Gif2ImgFrame/Gif2ImgFrame.cpp:323-339 | each entry holds its canvas's encoding and keeps its delay |
| CppGifFrames.FramesAsWritten | CPP-SDK/ImgProcesser/src/Gif2ImgFrame/Gif2ImgFrame.cpp:247-249 | as written, a GIF that failed to load is an error (the image count is read through a null `gif`), otherwise one entry per image |
| CppGifFrames.FramesAgreeWithoutPrevious | CPP-SDK/ImgProcesser/src/Gif2ImgFrame/Gif2ImgFrame.cpp:247-349 | for a loaded GIF without `DISPOSE_PREVIOUS` the as-written result equals the corrected one |
| CppGifFrames.RenderNext | CPP-SDK/ImgProcesser/src/Gif2ImgFrame/Gif2ImgFrame.cpp:326-338 | one corrected loop pass starts from the canvas the image before was drawn over when that image declared `DISPOSE_PREVIOUS` and from the last canvas otherwise, clears for `DISPOSE_BACKGROUND`, and yields the next composed canvas together with the canvas this image was drawn over (corrected; see Findings) |
| CppGifFrames.EncodeFramesWithDelay | CPP-SDK/ImgProcesser/src/Gif2ImgFrame/Gif2ImgFrame.cpp:245-350 | nothing for a GIF that failed to load; otherwise the encodings of the composed canvases with their delays, one per image in order (corrected; see Findings) |
| CppGifFrames.ReadGifWithDelays | CPP-SDK/src/DeviceInfo/streamdock.cpp:381-401 | nothing without an encoder or with the default helper, nothing for a GIF that failed to load, else the composed frames encoded for the helper's image type (corrected; see Findings) |
| CppImageEncoder.ImgTypeToExt | CPP-SDK/ImgProcesser/src/Gif2ImgFrame/IImageEncoder.h:41-56 | PNG, BMP and WEBP get their own extensions, and ".jpg" is given exactly for JPG and RAW |
| CppImageEncoder.ExtensionShared | CPP-SDK/ImgProcesser/src/Gif2ImgFrame/IImageEncoder.h:41-56 | only JPG and RAW share an extension |
| CppImageEncoder.SupportsAlpha | CPP-SDK/ImgProcesser/src/Gif2ImgFrame/IImageEncoder.h:58-61 | alpha is kept exactly for PNG and WEBP |
| CppImageEncoder.ImgEncodeParams | CPP-SDK/ImgProcesser/src/OpenCVImageEncoder/OpenCVImageEncoder.cpp:303-316 | JPEG and WEBP get the quality, PNG compression level 3, RAW and BMP no parameters |
| CppImageEncoder.QualityOnlyForLossy | CPP-SDK/ImgProcesser/src/OpenCVImageEncoder/OpenCVImageEncoder.cpp:303-316 | the quality changes the parameters exactly for JPEG and WEBP |
| CppImageEncoder.TruncatingRemainder360 | CPP-SDK/ImgProcesser/src/OpenCVImageEncoder/OpenCVImageEncoder.cpp:323 | C++ `%` by 360: magnitude below 360, the sign of the dividend, congruent to it |
| CppImageEncoder.NormalizeAngle | CPP-SDK/ImgProcesser/src/OpenCVImageEncoder/OpenCVImageEncoder.cpp:323-324 | the normalised angle lies in [0, 360) and is congruent to the given one |
| CppImageEncoder.NormalizeAngleUnique | CPP-SDK/ImgProcesser/src/OpenCVImageEncoder/OpenCVImageEncoder.cpp:322-324 | it is the only such angle |
| CppImageEncoder.TruncateToInt | CPP-SDK/ImgProcesser/src/OpenCVImageEncoder/OpenCVImageEncoder.cpp:323 | the `double` angle becomes its integer part, truncated toward zero for negative angles too |
| CppImageEncoder.FractionalAnglesTruncate | CPP-SDK/ImgProcesser/src/OpenCVImageEncoder/OpenCVImageEncoder.cpp:318-337 | truncation precedes the 90/180/270 test: 90.5 normalises to 90, -90.9 to 270 and -0.5 to 0 |
| CppImageEncoder.RotateClockwise | CPP-SDK/ImgProcesser/src/OpenCVImageEncoder/OpenCVImageEncoder.cpp:327-329 | the quarter turn clockwise swaps the dimensions and takes column i, bottom up, as row i |
| CppImageEncoder.RotateCounterClockwise | CPP-SDK/ImgProcesser/src/OpenCVImageEncoder/OpenCVImageEncoder.cpp:335-337 | the quarter turn counter-clockwise swaps the dimensions and takes column i from the right, top down, as row i |
| CppImageEncoder.Rotate180 | CPP-SDK/ImgProcesser/src/OpenCVImageEncoder/OpenCVImageEncoder.cpp:331-333 | the half turn keeps the dimensions and takes each pixel from the opposite one |
| CppImageEncoder.QuarterTurnsCancel | CPP-SDK/ImgProcesser/src/OpenCVImageEncoder/OpenCVImageEncoder.cpp:327-337 | the two quarter turns undo each other |
| CppImageEncoder.TwoQuartersMakeHalf | CPP-SDK/ImgProcesser/src/OpenCVImageEncoder/OpenCVImageEncoder.cpp:327-333 | two clockwise quarter turns are the half turn |
| CppImageEncoder.Rotate | CPP-SDK/ImgProcesser/src/OpenCVImageEncoder/OpenCVImageEncoder.cpp:318-346 | an empty picture is kept; normalised angles 90, 180 and 270 are the exact turns; any other angle gives the warped picture of the same size |
| CppImageEncoder.RotateByCongruentAngle | CPP-SDK/ImgProcesser/src/OpenCVImageEncoder/OpenCVImageEncoder.cpp:323-337 | any angle congruent to 90, 180 or 270 gives that exact turn |
| CppImageEncoder.FlipCode | CPP-SDK/ImgProcesser/src/OpenCVImageEncoder/OpenCVImageEncoder.cpp:353-364 | no flag gives no flip; both give -1, horizontal alone 1, vertical alone 0 |
| CppImageEncoder.FlipRows | CPP-SDK/ImgProcesser/src/OpenCVImageEncoder/OpenCVImageEncoder.cpp:362-367 | the vertical flip reverses the rows |
| CppImageEncoder.FlipCols | CPP-SDK/ImgProcesser/src/OpenCVImageEncoder/OpenCVImageEncoder.cpp:359-367 | the horizontal flip reverses each row |
| CppImageEncoder.CvFlip | CPP-SDK/ImgProcesser/src/OpenCVImageEncoder/OpenCVImageEncoder.cpp:367 | flip code 0 reverses rows, a positive code columns, a negative code both |
| CppImageEncoder.Flip | CPP-SDK/ImgProcesser/src/OpenCVImageEncoder/OpenCVImageEncoder.cpp:348-369 | an empty picture or no flag is kept, and the size never changes |
| CppImageEncoder.FlipTwice | CPP-SDK/ImgProcesser/src/OpenCVImageEncoder/OpenCVImageEncoder.cpp:348-369 | flipping twice with the same flags gives the picture back |
| CppImageEncoder.FlipBothIsHalfTurn | CPP-SDK/ImgProcesser/src/OpenCVImageEncoder/OpenCVImageEncoder.cpp:356-358 | flipping both ways equals the half turn |
| CppImageEncoder.Int32Of | CPP-SDK/ImgProcesser/src/OpenCVImageEncoder/OpenCVImageEncoder.cpp:375-378 | a `uint32_t` cast to `int` is the congruent value in the signed 32-bit range |
| CppImageEncoder.Clamp | CPP-SDK/ImgProcesser/src/OpenCVImageEncoder/OpenCVImageEncoder.cpp:380-383 | `std::clamp` lies in the range, keeps values inside it, and maps values below or above to the ends |
| CppImageEncoder.CropBounds | CPP-SDK/ImgProcesser/src/OpenCVImageEncoder/OpenCVImageEncoder.cpp:375-383 | the corners, the far one summed in 32 bits and cast to `int`, are clamped into the picture |
| CppImageEncoder.Crop | CPP-SDK/ImgProcesser/src/OpenCVImageEncoder/OpenCVImageEncoder.cpp:371-393 | an empty picture or a rectangle that clamps to nothing is kept; otherwise exactly the clamped rectangle's pixels |
| CppImageEncoder.CropInside | CPP-SDK/ImgProcesser/src/OpenCVImageEncoder/OpenCVImageEncoder.cpp:371-393 | a rectangle inside the picture is cut out exactly, at its size |
| CppImageEncoder.CropOutsideUnchanged | CPP-SDK/ImgProcesser/src/OpenCVImageEncoder/OpenCVImageEncoder.cpp:380-388 | a rectangle that starts right of or below the picture leaves it unchanged |
| CppImageEncoder.PadBorders | CPP-SDK/ImgProcesser/src/OpenCVImageEncoder/OpenCVImageEncoder.cpp:113-116 | the borders fill the slack exactly, the top and left getting the smaller half |
| CppImageEncoder.MakeBorder | CPP-SDK/ImgProcesser/src/OpenCVImageEncoder/OpenCVImageEncoder.cpp:118 | the framed picture has the bordered size, holds the picture at the border offset, and the fill value elsewhere |
| CppImageEncoder.PadFillsTarget | CPP-SDK/ImgProcesser/src/OpenCVImageEncoder/OpenCVImageEncoder.cpp:105-118 | padding gives exactly the target size |
| CppImageEncoder.ConvertMatToRawBytes | CPP-SDK/ImgProcesser/src/OpenCVImageEncoder/OpenCVImageEncoder.cpp:395-424 | an empty picture fails and keeps the output; BGR888 copies the pixels in row order, RGB16 the converted bytes, RGB888 keeps the output |
| CppImageEncoder.Bgr888Layout | CPP-SDK/ImgProcesser/src/OpenCVImageEncoder/OpenCVImageEncoder.cpp:400-405 | the BGR888 bytes are laid out like a canvas without alpha |
| CppImageEncoder.CanvasPlan | CPP-SDK/ImgProcesser/src/OpenCVImageEncoder/OpenCVImageEncoder.cpp:3-135 | an empty canvas is refused; the default helper encodes JPEG as is; cropping needs the crop mode, offsets from 0 and a positive size, resizing the resize mode and a positive size; the rest keeps the canvas, then rotates, flips and encodes with the helper's type |
| CppImageEncoder.BytesPlan | CPP-SDK/ImgProcesser/src/OpenCVImageEncoder/OpenCVImageEncoder.cpp:185-232 | undecodable input is refused; the default helper re-encodes JPEG; RAW goes to `encodeToBitmap`; otherwise the picture is scaled or padded, never cropped |
| CppImgHelper.DefaultHelper | CPP-SDK/ImgProcesser/src/ImgHelper/ImgHelper.h:18-58 | the default helper has offsets -1, size 0, no rotation or flip, JPG, BGR888, resize and scale |
| CppImgHelper.SizeHelper | CPP-SDK/ImgProcesser/src/ImgHelper/ImgHelper.h:19-23 | the size constructor sets size, rotation, options and encoding and keeps the offsets at -1 |
| CppImgHelper.CropHelper | CPP-SDK/ImgProcesser/src/ImgHelper/ImgHelper.h:24-28 | the crop constructor also sets the offsets, and the mode stays `Resize` |
| CppImgHelper.EqualIgnoresProcesser | CPP-SDK/ImgProcesser/src/ImgHelper/ImgHelper.h:30-45 | equality compares every field but the processing mode, is reflexive and symmetric, and `!=` is its negation |
| CppImgHelper.SizeHelperIsDefault | CPP-SDK/ImgProcesser/src/ImgHelper/ImgHelper.h:18-41 | a size-built helper with default options equals the default exactly when size and rotation are 0 |
| CppRawCanvas.Channels | CPP-SDK/ImgProcesser/src/Gif2ImgFrame/RawCanvas.h:17-23 | 4 bytes per pixel exactly with alpha, else 3 |
| CppRawCanvas.NewCanvas | CPP-SDK/ImgProcesser/src/Gif2ImgFrame/RawCanvas.h:15-18 | the buffer has `w * h * channels` bytes, all 0 |
| CppRawCanvas.PixelOffset | CPP-SDK/ImgProcesser/src/Gif2ImgFrame/RawCanvas.h:20-24 | in-bounds coordinates only; the offset is a multiple of the channel count with the whole slot inside the buffer |
| CppRawCanvas.SlotsDisjoint | CPP-SDK/ImgProcesser/src/Gif2ImgFrame/RawCanvas.h:20-24 | distinct pixels own disjoint slots |
| CppRawCanvas.SlotsCover | CPP-SDK/ImgProcesser/src/Gif2ImgFrame/RawCanvas.h:17-23 | every byte of the buffer belongs to a pixel's slot |
| CppRawCanvas.FlattenLength | CPP-SDK/ImgProcesser/src/Gif2ImgFrame/RawCanvas.h:17 | a picture of `h` rows of `w` pixels flattens to `w * h * channels` bytes |
| CppRawCanvas.FlattenAt | CPP-SDK/ImgProcesser/src/Gif2ImgFrame/RawCanvas.h:23 | byte k of pixel (x, y) of the rows sits at `(y * w + x) * channels + k` of the flat buffer |
| CppRawCanvas.FlattenLayout | CPP-SDK/ImgProcesser/src/Gif2ImgFrame/RawCanvas.h:15-24 | the flattened rows are a valid canvas buffer and `pixel(x, y)` points at exactly the pixel (x, y) |
| CppLogger.LevelPrefix | CPP-SDK/src/logger.h:132-147 | every level's prefix is seven characters in square brackets |
| CppLogger.LevelPrefixInjective | CPP-SDK/src/logger.h:133-147 | no two levels share a prefix |
| CppLogger.Find | CPP-SDK/src/logger.h:176-190 | the placeholder found is the first `{}` in the text; none is found only when the text has none |
| CppLogger.NoPlaceholders | CPP-SDK/src/logger.h:193-197 | a format without placeholders comes out followed by every argument |
| CppLogger.SurplusPlaceholdersKept | CPP-SDK/src/logger.h:184-187 | with no arguments, every placeholder stays `{}` and the format comes back as it is |
| CppLogger.SurplusArgumentsAppended | CPP-SDK/src/logger.h:194-197 | arguments beyond the placeholders are appended, in order, after the filled text |
| CppLogger.FillAt | CPP-SDK/src/logger.h:177-190 | one placeholder step: the text before it, then the next argument or `{}`, then the rest filled with the arguments left |
| CppLogger.FormatMessage | CPP-SDK/src/logger.h:169-199 | the time stamp in brackets, then the format with each placeholder filled in turn, extra placeholders kept and extra arguments appended |
| CppLogger.LogQueue.constructor | CPP-SDK/src/logger.h:61-65 | an empty queue that is not shut down |
| CppLogger.LogQueue.Push | CPP-SDK/src/logger.h:32-37 | the message goes to the back of the queue |
| CppLogger.LogQueue.Pop | CPP-SDK/src/logger.h:39-52 | once woken, false exactly when the queue is empty (and so shut down), leaving it as it is; otherwise the front message, taken off |
| CppLogger.LogQueue.Shutdown | CPP-SDK/src/logger.h:54-59 | the queue is marked shut down |
| CppLogger.Logger.constructor | CPP-SDK/src/logger.h:78-114 | a fresh empty queue, the exit flag clear, nothing written |
| CppLogger.Logger.Log | CPP-SDK/src/logger.h:129-150 | one line is queued: the level's prefix, the time stamp and the filled format |
| CppLogger.Logger.Work | CPP-SDK/src/logger.h:108-113 | while the exit flag is clear, every queued line is written in order and the queue empties; with the flag set nothing is written |
| CppLogger.Logger.Destroy | CPP-SDK/src/logger.h:115-128 | the exit flag is set before the shutdown, so lines still queued are not written |
| CppTransportCodes.CategoryByte | CPP-SDK/src/Transport/TransportDLL/transport_c.h:28-38 | each category's byte is non-zero and fits in 8 bits |
| CppTransportCodes.ModuleByte | CPP-SDK/src/Transport/TransportDLL/transport_c.h:40-44 | each module's byte is non-zero and fits in 8 bits |
| CppTransportCodes.Compose | CPP-SDK/src/Transport/TransportDLL/transport_c.h:26-78 | a composed code fits in 32 bits |
| CppTransportCodes.ComposeFields | CPP-SDK/src/Transport/TransportDLL/transport_c.h:28-44 | the category, module and detail read back from a composed code are the ones put in, and bits 23-16 stay clear |
| CppTransportCodes.OrIsCompose | CPP-SDK/src/Transport/TransportDLL/transport_c.h:47-78 | the bitwise or of the shifted fields equals their sum |
| CppTransportCodes.PartsInverse | CPP-SDK/src/Transport/TransportDLL/transport_c.h:47-78 | each specific code's parts name that code and no other |
| CppTransportCodes.Code | CPP-SDK/src/Transport/TransportDLL/transport_c.h:47-78 | every specific code fits in 32 bits |
| CppTransportCodes.CodeFields | CPP-SDK/src/Transport/TransportDLL/transport_c.h:29-78 | each code carries its category in the top byte, its module in bits 15-8 and its detail in the low byte, and is not `TRANSPORT_SUCCESS` |
| CppTransportCodes.BytesInjective | CPP-SDK/src/Transport/TransportDLL/transport_c.h:28-44 | the category bytes are distinct, and so are the module bytes |
| CppTransportCodes.CodesDistinct | CPP-SDK/src/Transport/TransportDLL/transport_c.h:47-78 | no two specific codes share a value |
| CppStreamDock.IsJpegData | CPP-SDK/src/DeviceInfo/streamdock.cpp:317-336 | a stream passes exactly when it has at least four bytes and starts FF D8; the end marker is not required |
| CppStreamDock.IsPngData | CPP-SDK/src/DeviceInfo/streamdock.cpp:338-357 | a stream passes exactly when it has at least eight bytes opening with the PNG signature |
| CppStreamDock.SignatureChecks | CPP-SDK/src/DeviceInfo/streamdock.cpp:317-357 | a truncated JPEG passes, and no stream passes both checks |
| CppStreamDock.IsStreamDockHidDeviceUsage | CPP-SDK/src/DeviceInfo/streamdock.cpp:304-315 | only usage 1 on usage page 65440 is accepted |
| CppStreamDock.UsageOnlyMatters | CPP-SDK/src/DeviceInfo/streamdock.cpp:304-315 | the result depends on the usage pair alone, and that pair is accepted |
| CppStreamDock.StreamDock.constructor | CPP-SDK/src/DeviceInfo/streamdock.cpp:8-13 | the description, features and read-value table as given, no helpers, no controllers, nothing sent |
| CppStreamDock.StreamDock.Init | CPP-SDK/src/DeviceInfo/streamdock.cpp:24-34 | the read controller always; the LED, GIF and config controllers exactly when the device has the feature |
| CppStreamDock.StreamDock.InitImgHelper | CPP-SDK/src/DeviceInfo/streamdock.cpp:36-46 | each missing helper is filled from the description: background and key helpers always, second-screen and background-GIF helpers only with the feature; present helpers are kept |
| CppStreamDock.StreamDock.FirmwareVersion | CPP-SDK/src/DeviceInfo/streamdock.cpp:48-53 | the stored version, or the device's answer when none is stored |
| CppStreamDock.StreamDock.OutOfRange | CPP-SDK/src/DeviceInfo/streamdock.cpp:200-205 | out of range only outside the key range and, on a dual device, outside the second-screen range; never on a device that is not dual |
| CppStreamDock.StreamDock.KyImgHelper | CPP-SDK/src/DeviceInfo/streamdock.cpp:414-423 | the key helper for main keys, else the second-screen helper for its keys, else the default helper |
| CppStreamDock.StreamDock.SetKeyImgFileStream | CPP-SDK/src/DeviceInfo/streamdock.cpp:131-151 | one key-image command exactly when the key is in range, the transport writes and the data matches the key helper's JPEG or PNG type; nothing otherwise |
| CppStreamDock.StreamDock.BackgroundCommands | CPP-SDK/src/DeviceInfo/streamdock.cpp:172-193 | a writable transport gets a JPEG-checked stream on a dual device and a bitmap otherwise; a transport that cannot write gets nothing |
| CppStreamDock.StreamDock.SetBackgroundImgStream | CPP-SDK/src/DeviceInfo/streamdock.cpp:172-193 | the log grows by exactly `BackgroundCommands` |
| CppStreamDock.StreamDock.BgImgHelper | CPP-SDK/src/DeviceInfo/streamdock.cpp:408-412 | the background helper, or a zero-sized default helper |
| CppStreamDock.StreamDock.BackgroundGifHelper | CPP-SDK/src/DeviceInfo/streamdock.cpp:431-435 | the background-GIF helper, or a zero-sized default helper |
| CppStreamDock.StreamDock.Refresh | CPP-SDK/src/DeviceInfo/streamdock.cpp:83-87 | a refresh goes to a writable transport only |
| CppStreamDock.StreamDock.ClearKey | CPP-SDK/src/DeviceInfo/streamdock.cpp:72-81 | a clear goes out only for a key in range on a writable transport |
| CppStreamDock.NonDualAcceptsAnyKey | CPP-SDK/src/DeviceInfo/streamdock.cpp:200-205 | on a device that is not dual any key number gets a JPEG image through |
| CppStreamDock.AcceptedKeyImage | CPP-SDK/src/DeviceInfo/streamdock.cpp:131-151 | whatever is sent passed the range check, starts FF D8 for a JPEG helper, and opens with the PNG signature for a PNG helper on a transparent-icon device |
| CppStreamDock.HelperSizesAfterInit | CPP-SDK/src/DeviceInfo/streamdock.cpp:414-423 | after `initImgHelper`, main keys get the key size, second-screen keys the second-screen size, others the default helper |
| CppSdkN4.Transform | CPP-SDK/StreamDock_CppSDK/src/StreamDockN4.cpp:17-32 | 1..5 and 11..15 trade places, 6..10 stay, anything else is -1 |
| CppSdkN4.TransformInvolution | CPP-SDK/StreamDock_CppSDK/src/StreamDockN4.cpp:17-32 | on 1..15 the transform maps into 1..15 and undoes itself |
| CppSdkN4.StreamDockN4.constructor | CPP-SDK/StreamDock_CppSDK/src/StreamDockN4.cpp:3-11 | key 112x112, second screen 176x112, background 800x480, both rotations 180, keys 1..10, second-screen keys 11..14 |
| CppSdkN4.StreamDockN4.ScreenOf | CPP-SDK/StreamDock_CppSDK/src/StreamDockN4.cpp:95-130 | second-screen keys take the second-screen conversion first, then main keys the key conversion, others none |
| CppSdkN4.StreamDockN4.SetKeyImg | CPP-SDK/StreamDock_CppSDK/src/StreamDockN4.cpp:87-112 | 0 when the image does not load or the key is in neither range; otherwise one image call under the transformed index and the transport's answer |
| CppSdkN4.StreamDockN4.SetKeyImgData | CPP-SDK/StreamDock_CppSDK/src/StreamDockN4.cpp:114-142 | missing pixels, a zero dimension or a non-positive pitch give 0, then routing as `setKeyImg` |
| CppSdkN4.StreamDockN4.ClearIcon | CPP-SDK/StreamDock_CppSDK/src/StreamDockN4.cpp:144-148 | the transformed index is cleared with no range check, and the transport's answer is returned |
| CppSdkN4.RoutedIndices | CPP-SDK/StreamDock_CppSDK/src/StreamDockN4.cpp:87-112 | main keys land on device indices 6..15, second-screen keys on 1..4, and distinct keys on distinct indices |
| Cpp293V3.ReadValueMapDistinct | CPP-SDK/src/HotspotDevice/StreamDock293V3/streamdock293V3.cpp:54-59 | the fifteen codes are pairwise distinct, the reverse table inverts the table, and the codes are exactly 0x01..0x0F |
| Cpp293V3.RowsMirrored | CPP-SDK/src/HotspotDevice/StreamDock293V3/streamdock293V3.cpp:55-58 | key k, counted from the bottom row, reports the position of the same key counted from the top row |
| Cpp293V3.DispatchMatchesTable | CPP-SDK/src/HotspotDevice/StreamDock293V3/streamdock293V3.cpp:62-69 | a press exactly for a reported key with event 1, a release exactly with event 0, and `EveryThing` for any other code or event |
| Cpp293V2.SameAs293V3 | CPP-SDK/src/HotspotDevice/StreamDock293V2/streamdock293V2.cpp:19-53 | the table and dispatch equal the 293V3's, with distinct codes; only the key size, background encoding and dual flag differ |
| Cpp293V2.BitmapBackground | CPP-SDK/src/DeviceInfo/streamdock.cpp:172-205 | on a writable transport every background goes out as a bitmap, and no key number is refused |
| Cpp293sV3.ReadValueMapIdentity | CPP-SDK/src/HotspotDevice/StreamDock293sV3/streamdock293sV3.cpp:43-49 | every key 1..15 reports its own number, so the table is its own inverse with distinct codes |
| Cpp293sV3.SecondScreenDisplayOnly | CPP-SDK/src/HotspotDevice/StreamDock293sV3/streamdock293sV3.cpp:38-59 | the second-screen keys 16..18 report nothing and dispatch to `EveryThing`, yet are accepted for images and drawn with the 80x80 helper |
| Cpp293sV3.BeyondSecondScreen | CPP-SDK/src/DeviceInfo/streamdock.cpp:200-205 | key 0 and keys past 18 are out of range |
| Cpp293sV2.SameAs293sV3 | CPP-SDK/src/HotspotDevice/StreamDock293sV2/streamdock293sV2.cpp:20-60 | the table and dispatch equal the 293sV3's; only the dual flag and the background encoding differ |
| Cpp293sV2.NoRangeCheck | CPP-SDK/src/DeviceInfo/streamdock.cpp:200-205 | without the dual flag a key past 18 is not refused and gets the default helper |
| CppK1Pro.ReadValueMapDistinct | CPP-SDK/src/HotspotDevice/K1Pro/K1Pro.cpp:60-81 | the fifteen codes are pairwise distinct, the reverse table inverts the table, and the mapped keys are exactly 1..15 |
| CppK1Pro.DispatchKeys | CPP-SDK/src/HotspotDevice/K1Pro/K1Pro.cpp:87-94 | the code of each of the six keys gives a press exactly on event 1 and a release exactly on event 0 |
| CppK1Pro.DispatchKnobs | CPP-SDK/src/HotspotDevice/K1Pro/K1Pro.cpp:97-110 | knob press and release exactly for the three knob codes with event 1 or 0; left and right turns only for their three codes with event 0; any code outside the table is `EveryThing` |
| CppK1Pro.SetBackgroundImgFile | CPP-SDK/src/HotspotDevice/K1Pro/K1Pro.cpp:113-118 | setting a background sends nothing to the device |
| CppK1Pro.LightingEffectCommands | CPP-SDK/src/HotspotDevice/K1Pro/K1Pro.cpp:126-131 | the effect command is always sent last, and a speed-0 command goes before it exactly when the effect is 0 (static) |
| CppK1Pro.SetKeyboardLightingEffects | CPP-SDK/src/HotspotDevice/K1Pro/K1Pro.cpp:126-131 | appends exactly the commands `LightingEffectCommands` lists |
| CppK1Pro.SetKeyboardLightingSpeed | CPP-SDK/src/HotspotDevice/K1Pro/K1Pro.cpp:133-136 | appends one lighting-speed command with the given speed |
| CppK1Pro.SetKeyboardBacklightBrightness | CPP-SDK/src/HotspotDevice/K1Pro/K1Pro.cpp:120-123 | appends one brightness command with the given value |
| CppK1Pro.SetKeyboardRgbBacklight | CPP-SDK/src/HotspotDevice/K1Pro/K1Pro.cpp:138-141 | appends one RGB command with the given three colours |
| CppK1Pro.KeyboardOsModeSwitch | CPP-SDK/src/HotspotDevice/K1Pro/K1Pro.cpp:143-146 | appends one OS-mode command with the given mode |
| CppM18.ReadValueMapDistinct | CPP-SDK/src/HotspotDevice/StreamDockM18/streamdockM18.cpp:56-63 | the eighteen codes are pairwise distinct and the reverse table inverts the table |
| CppM18.KeysAs293V3 | CPP-SDK/src/HotspotDevice/StreamDockM18/streamdockM18.cpp:56-76 | keys 1..15 report the same codes as on the 293V3 and dispatch the same way |
| CppM18.DispatchMapped | CPP-SDK/src/HotspotDevice/StreamDockM18/streamdockM18.cpp:71-82 | every key and button presses on event 1 and releases on event 0; the button band also takes the codes 0x26..0x2F, which no key reports |
| CppM18.ChangeV2Mode | CPP-SDK/src/HotspotDevice/StreamDockM18/streamdockM18.cpp:66-69 | clears the dual-image and background-GIF flags and leaves every other feature as it was |
| CppM18.V2ModeIsSingleImage | CPP-SDK/src/HotspotDevice/StreamDockM18/streamdockM18.cpp:66-69 | once the dual flag is clear no key is refused and, on a writable transport, backgrounds go out as bitmaps |
| CppM3.ReadValueMapDistinct | CPP-SDK/src/HotspotDevice/StreamDockM3/streamdockM3.cpp:61-70 | the 24 codes are pairwise distinct, the reverse table inverts the table, and the mapped values are exactly 1..24 |
| CppM3.DispatchKeys | CPP-SDK/src/HotspotDevice/StreamDockM3/streamdockM3.cpp:76-79 | codes 0x01..0x0F give a press exactly on event 1 and a release exactly on event 0 |
| CppM3.DispatchKnobs | CPP-SDK/src/HotspotDevice/StreamDockM3/streamdockM3.cpp:82-90 | a knob press exactly for the three press codes with event 1; left and right turns exactly for their codes with event 0; never a knob release |
| CppM3.UnmappedReleaseCodes | CPP-SDK/src/HotspotDevice/StreamDockM3/streamdockM3.cpp:61-81 | codes 0x40..0x43 dispatch a release, but no logical value reports them |
| CppM3.KeyImagesUnchecked | CPP-SDK/src/DeviceInfo/streamdock.cpp:131-151 | with the M3's settings and a PNG key helper, any image stream for keys 1..15 is accepted on a writable transport, because no PNG signature is checked |
| CppN1.ReadValueMapDistinct | CPP-SDK/src/HotspotDevice/StreamDockN1/streamdockN1.cpp:60-71 | the twenty codes are pairwise distinct, the reverse table inverts the table, and the mapped values are exactly 1..20 |
| CppN1.DispatchMapped | CPP-SDK/src/HotspotDevice/StreamDockN1/streamdockN1.cpp:75-94 | keys and top buttons press on event 1 and release on event 0, the knob code gives knob press and release, the two turn codes give left and right on event 0, and no mapped code is left to `EveryThing` |
| CppN1.DispatchUnmapped | CPP-SDK/src/HotspotDevice/StreamDockN1/streamdockN1.cpp:75-94 | a code outside the table always dispatches `EveryThing` |
| CppN1.ModeByte | CPP-SDK/src/HotspotDevice/StreamDockN1/streamdockN1.h:8-13 | the modes become bytes 0, 1 and 2 in declaration order |
| CppN1.ChangeMode | CPP-SDK/src/HotspotDevice/StreamDockN1/streamdockN1.cpp:96-101 | appends one change-mode command carrying the mode's byte |
| CppN1.LastNumber | CPP-SDK/src/HotspotDevice/StreamDockN1/streamdockN1.cpp:103-124 | -1 when there is no dot or no digit after the last dot, the digits' value when it fits an `int`, and the out-of-range error otherwise, agreeing with the Python helper's scan |
| CppN1.ExtractLastNumber | CPP-SDK/src/HotspotDevice/StreamDockN1/streamdockN1.cpp:103-124 | returns exactly `LastNumber` of the version string |
| CppN1.DecimalValueLowerBound | CPP-SDK/src/HotspotDevice/StreamDockN1/streamdockN1.cpp:113-123 | a digit string is worth at least its leading digit times that digit's place value |
| CppN1.LongDigitsOverflow | CPP-SDK/src/HotspotDevice/StreamDockN1/streamdockN1.cpp:123 | eleven or more digits with a non-zero lead exceed the largest `int` |
| CppN1.LongNumberThrows | CPP-SDK/src/HotspotDevice/StreamDockN1/streamdockN1.cpp:123 | such a last number makes the conversion throw |
| CppN1.BackgroundAllowed | CPP-SDK/src/HotspotDevice/StreamDockN1/streamdockN1.cpp:126-135 | a background passes exactly when the last number is between 13 and the largest `int`, and the call throws exactly when the conversion does |
| CppN1.EmptyFirmwareBlocks | CPP-SDK/src/HotspotDevice/StreamDockN1/streamdockN1.cpp:133-134 | a device whose version string is empty never gets a background |
| CppN1.SetBackgroundImgStream | CPP-SDK/src/HotspotDevice/StreamDockN1/streamdockN1.cpp:131-135 | sends the base class's background commands exactly when `BackgroundAllowed` says so, nothing otherwise, and passes on the conversion error |
| CppN3V2.SameAsN3V25 | CPP-SDK/src/HotspotDevice/StreamDockN3V2/streamdockN3V2.cpp:55-86 | the V2 class's table and dispatch equal the N3V25's, and its codes are distinct |
| CppN3V2.V25SwitchMatchesV2 | CPP-SDK/src/HotspotDevice/StreamDockN3V2/streamdockN3V2.cpp:36-54 | a V25 device after its firmware switch has exactly the V2's features, and its settings differ from the V2's only in background encoding and key rotation |
| CppN3V2.BitmapBackground | CPP-SDK/src/DeviceInfo/streamdock.cpp:172-205 | on a writable transport every background goes out as a bitmap, and no key number is refused |
| CppN3V25.ReadValueMapDistinct | CPP-SDK/src/HotspotDevice/StreamDockN3V25/streamdockN3V25.cpp:55-66 | the eighteen codes are pairwise distinct, the reverse table inverts the table, and the mapped values are exactly 1..18 |
| CppN3V25.DispatchMapped | CPP-SDK/src/HotspotDevice/StreamDockN3V25/streamdockN3V25.cpp:71-88 | keys and buttons press on event 1 and release on event 0; knob presses come on event 0 and on event 1 give `EveryThing`; turns come on event 0; no code ever gives a knob release |
| CppN3V25.ButtonBandGaps | CPP-SDK/src/HotspotDevice/StreamDockN3V25/streamdockN3V25.cpp:55-80 | the button band also takes codes 0x26..0x2F, which dispatch key events but which no key reports |
| CppN3V25.ContainsOccurrence | CPP-SDK/src/HotspotDevice/StreamDockN3V25/streamdockN3V25.cpp:106-111 | the substring search succeeds exactly when the pattern occurs at some index |
| CppN3V25.ModeOf | CPP-SDK/src/HotspotDevice/StreamDockN3V25/streamdockN3V25.cpp:105-115 | V25 mode exactly when the version names "V25.N3"; V3 mode exactly when it names "V3.N3" but not "V25.N3" |
| CppN3V25.ApplyMode | CPP-SDK/src/HotspotDevice/StreamDockN3V25/streamdockN3V25.cpp:92-115 | V25 clears the dual and GIF flags; V3 sets dual and clears GIF and LEDs; no match changes nothing; no other feature ever changes |
| CppN3V25.ChangeFirmwareVersionMode | CPP-SDK/src/HotspotDevice/StreamDockN3V25/streamdockN3V25.cpp:89-116 | the new features are `ApplyMode` of the old ones for the mode the device's reported version selects |
| CppN3V25.ApplyModeIdempotent | CPP-SDK/src/HotspotDevice/StreamDockN3V25/streamdockN3V25.cpp:89-116 | applying the switch a second time changes nothing |
| CppN3V25.V25IsSingleImage | CPP-SDK/src/HotspotDevice/StreamDockN3V25/streamdockN3V25.cpp:92-96 | after the V25 switch no key is refused, and backgrounds on a writable transport go out as bitmaps |
| CppN3V25.V25Example | CPP-SDK/src/HotspotDevice/StreamDockN3V25/streamdockN3V25.cpp:106-110 | the version "V25.N3.01" selects V25 mode |
| CppN4.SameAsN4Pro | CPP-SDK/src/HotspotDevice/StreamDockN4/streamdockN4.cpp:59-92 | the N4's table and dispatch equal the N4Pro's, and its codes are distinct |
| CppN4.KeyRanges | CPP-SDK/src/HotspotDevice/StreamDockN4/streamdockN4.cpp:45-58 | main keys 6..15 and second-screen keys 1..4 are disjoint, and the N4 lacks the N4Pro's LEDs, background GIF and config |
| CppN4.DispatchKeys | CPP-SDK/src/HotspotDevice/StreamDockN4/streamdockN4.cpp:75-78 | codes 0x01..0x0A give a press exactly on event 1 and a release exactly on event 0 |
| CppN4.DispatchKnobsAndSwipes | CPP-SDK/src/HotspotDevice/StreamDockN4/streamdockN4.cpp:79-91 | knob and swipe events come only on event 0, and every unlisted code gives `EveryThing` |
| CppN4Pro.ReadValueMapDistinct | CPP-SDK/src/HotspotDevice/StreamDockN4Pro/streamdockN4Pro.cpp:70-81 | the reverse table inverts the table, so the 28 codes are pairwise distinct |
| CppN4Pro.KeyRanges | CPP-SDK/src/HotspotDevice/StreamDockN4Pro/streamdockN4Pro.cpp:55-81 | main keys are 6..15 and second-screen keys 1..4, and the table covers exactly 1..4 and 6..29 |
| CppN4Pro.DispatchKeys | CPP-SDK/src/HotspotDevice/StreamDockN4Pro/streamdockN4Pro.cpp:86-89 | codes 0x01..0x0A give a press exactly on event 1, a release exactly on event 0, and `EveryThing` on any other event |
| CppN4Pro.DispatchSecondScreen | CPP-SDK/src/HotspotDevice/StreamDockN4Pro/streamdockN4Pro.cpp:90-91 | second-screen codes give a release on event 0 and `EveryThing` otherwise |
| CppN4Pro.DispatchKnobsAndSwipes | CPP-SDK/src/HotspotDevice/StreamDockN4Pro/streamdockN4Pro.cpp:92-102 | which codes give knob turns, knob presses and swipes, always and only on event 0; never a knob release or toggle |
| CppN4Pro.DispatchMatchesTable | CPP-SDK/src/HotspotDevice/StreamDockN4Pro/streamdockN4Pro.cpp:70-103 | every code in the table dispatches a real event on event 0, and every code that dispatches one is in the table |
| CppN4Pro.TouchBarPoint | CPP-SDK/src/HotspotDevice/StreamDockN4Pro/streamdockN4Pro.cpp:108-112 | a point exactly when bytes 0..2 are "ACK" and bytes 4..6 are "ARX", each coordinate a 16-bit value |
| CppN4Pro.TouchReport | CPP-SDK/src/HotspotDevice/StreamDockN4Pro/streamdockN4Pro.cpp:109-112 | a touch report is 14 bytes of header and coordinates followed by the filler |
| CppN4Pro.TouchBarRoundTrip | CPP-SDK/src/HotspotDevice/StreamDockN4Pro/streamdockN4Pro.cpp:108-112 | decoding a touch report gives back the point encoded in it |
| CppXL.ReadValueMapDistinct | CPP-SDK/src/HotspotDevice/StreamDockXL/streamdockXL.cpp:63-71 | the thirty-six codes are pairwise distinct and the reverse table inverts the table |
| CppXL.RowsMirrored | CPP-SDK/src/HotspotDevice/StreamDockXL/streamdockXL.cpp:64-68 | key k's code is the same row-and-column position with the row counted from the top instead of the bottom |
| CppXL.BottomRows | CPP-SDK/src/HotspotDevice/StreamDockXL/streamdockXL.cpp:65-66 | the two bottom rows report the codes of the two top rows |
| CppXL.TopRows | CPP-SDK/src/HotspotDevice/StreamDockXL/streamdockXL.cpp:67-68 | the two top rows report the codes of the two bottom rows |
| CppXL.MirrorInvolution | CPP-SDK/src/HotspotDevice/StreamDockXL/streamdockXL.cpp:64-68 | mirroring the rows twice gives the key back, so a key and its code determine each other |
| CppXL.DispatchMapped | CPP-SDK/src/HotspotDevice/StreamDockXL/streamdockXL.cpp:75-87 | every key code presses on event 1 and releases on event 0; keys 33 and 35 toggle up and 34 and 36 toggle down on event 0 only |
| CppXL.DispatchUnmapped | CPP-SDK/src/HotspotDevice/StreamDockXL/streamdockXL.cpp:75-87 | a code outside the table always dispatches `EveryThing` |
| PyN4Pro.SecondaryDomain | Python-SDK/src/StreamDock/Devices/StreamDockN4Pro.py:81-86 | the second-screen table knows exactly the codes 0x40..0x43 |
| PyN4Pro.KnobRotateDomain | Python-SDK/src/StreamDock/Devices/StreamDockN4Pro.py:96-105 | the rotation table knows exactly the eight turn codes |
| PyN4Pro.KnobRotateDirections | Python-SDK/src/StreamDock/Devices/StreamDockN4Pro.py:96-105 | in the rotation table each knob's even code turns left and its odd code turns right |
| PyN4Pro.KnobPressDomain | Python-SDK/src/StreamDock/Devices/StreamDockN4Pro.py:115-120 | the press table knows exactly the four press codes |
| PyN1.ThirteenSpelled | Python-SDK/src/StreamDock/Devices/StreamDockN1.py:36 | the digits "013" convert to 13 |
| PyDeviceManager.DeviceManager.constructor | Python-SDK/src/StreamDock/DeviceManager.py:24-32 | a new manager starts with no devices and nothing opened |
| CppImageEncoder.FlipRowsTwice | CPP-SDK/ImgProcesser/src/OpenCVImageEncoder/OpenCVImageEncoder.cpp:362-368 | the vertical flip is its own inverse |
| CppImageEncoder.FlipColsTwice | CPP-SDK/ImgProcesser/src/OpenCVImageEncoder/OpenCVImageEncoder.cpp:359-368 | the horizontal flip is its own inverse |
| CppImageEncoder.FlipsCommute | CPP-SDK/ImgProcesser/src/OpenCVImageEncoder/OpenCVImageEncoder.cpp:348-369 | flipping rows then columns equals flipping columns then rows |

## Left out

- PyDeviceManager.DeviceManager.PollOnce: the order in which a Python set is iterated is left open; the method returns it as a ghost sequence that lists each new path once. Of the exceptions the `except` branch catches, only one raised by the pass's scan is modelled; one raised inside a handler (by its enumeration, a device's constructor or `open`) would keep the devices already appended and the old `current_devices`, and is not modelled.
- CppReadController.ReadController.StartReadLoop: the `!_instance` and null-transport guards of `startReadLoop` and `stopReadLoop` (readcontroller.cpp:71-86) are not modelled; the modelled controller always belongs to a device with a transport, so the flag is always set or cleared.
- PyDeviceManager.DeviceManager.AddFirstMatches: this loop and the Windows addition check build every new device on the manager's one shared `self.transport`, while `enumerate` gives each device a transport of its own. The model records which (`OwnTransport` or `SharedTransport`), but not the effect of several devices sharing one transport's handle.
- CppRawCanvas.PixelOffset: the source only `assert`s that the pixel lies on the canvas (RawCanvas.h:22), which a release build drops. The model makes it a precondition, so a write outside the canvas is not modelled.
- CppGifFrames.ImageFits: frames whose rectangle overruns the logical screen, or whose colour indices fall outside the colour map, are excluded by the precondition `Renderable`. The source would hit the debug-only assert in `pixel` or read past the colour map.
- Threads, joins, condition variables and timed waits are not modelled as concurrency. This covers the Python reader thread, the C++ read and GIF workers, the logger's worker and its blocking pop, HeartBeat and ThreadPool. Each worker is modelled as one pass of its loop, and a blocking wait becomes a precondition.
- Clocks and sleeps are parameters. The GIF worker's elapsed microseconds and the logger's time stamp are passed in.
- The iteration order of a C++ `unordered_map` is a parameter. The GIF pass walks the table in a given order that must list every key.
- Callbacks flagged to run asynchronously on a detached thread are treated as run in place. Running one is recorded in order.
- Native code is not modelled: ctypes and DLL loading, the raw `transport_*` calls, hidapi, libusb. Their results are parameters, and the transport is a log of commands plus a can-write flag.
- Image work is done by outside libraries and is left out: PIL, OpenCV resizing, arbitrary-angle rotation, colour conversion and encoders, FreeImage, giflib decoding, temporary files and `readImgToString`. Where the code hands a picture to one of them, the result is a parameter, and so is whether the call raises. In the Python image setters this is `imageOpens`: whether `Image.open`, the format conversion and `save` all succeed. The `os.remove` of the temporary file after the transport call is taken to succeed.
- `setKeyImgFile` and `setBackgroundImgFile` in the C++ base class are not modelled separately, because they read a file and encode it. Only the stream setters they end in are modelled.
- The RGB565 conversion of the N3 background is not modelled. It is part of the encoder parameter.
- Rotation angles are `int` in the model. The source holds them as `double` and truncates toward zero with `static_cast<int>` before the 90/180/270 test; the model's angle is that truncated value (`TruncateToInt`), and every device sets a whole-degree angle.
- LibUsbTransport.LibUsbHidApi.GetFirmwareVersion: the version is kept as the raw bytes of the first non-empty segment; the lossy UTF-8 decode (`errors="ignore"`, which drops invalid bytes) is not modelled, because the model has no text encoding.
- `Gif2ImgFrame::encodeFramesToMemory` and `saveFramesToFiles` are not modelled, because they only write encoded frames to memory or files. The thread-pool variant of frame encoding is not modelled either; only the serial loop is.
- The older SDK's N4 `setBackgroundImg` and `setBackgroundImgData` are only image conversion through FreeImage, so they are left out. The SDK base class that holds its key ranges is not part of this model.
- The Windows and Linux device-manager listeners (WMI, udev and pyudev loops) are not modelled as event loops. One polling pass and one udev event are modelled. The macOS Python SDK copy and the legacy Python `src` tree repeat the same logic.
- The C++ one-line transport pass-throughs are not modelled beyond `refresh` and `clearKey`. These are `wakeupScreen`, `setKeyBrightness`, `clearAllKeys`, `sleep`, `disconnected` and `heartbeat`, and each only forwards when the transport can write. `lastError`, `disableOutput` and the controller getters are not modelled either.
- `isStreamDockHidDevice` is not modelled, because it matches wide manufacturer and product strings. The usage-page check beside it is modelled.
- Error messages the SDKs print are dropped.
- Python's `str.isdigit` is read as ASCII `0`..`9`. `int(s, 16)` is read on plain hex digit strings; prefixes, underscores and signs are not modelled.
- The StreamDockN1 header declares empty inline `setBackgroundImgFile` and `setBackgroundImgStream` bodies, which clash with the definitions in the `.cpp` file (streamdockN1.h:17-20). The model follows the `.cpp` bodies.
- CppN4Pro.TouchBarPoint: `registerTouchBarCallback` ignores the callback it is given. It installs a callback that only prints the decoded point, so the model states the decoding and not the delivery.
- PyDeviceManager.DeviceManager.constructor: `streamdocks` is a class-level list that all managers share. The model gives each manager its own list, starting empty.
- CppDeviceEnumerator.DeviceEnumerator.FindByVidPid: the result is stated in listing order. The C++ multimap's `equal_range` promises no order, so the model fixes one.
- CppGifController.GifController.Tick: the order in which frames are sent within one pass is the order parameter. The source's hash-table order is not modelled.
- CppLogger.FormatMessage: the placeholder search is stated relative to the current position, while the source works with absolute indices. The two give the same text.
- The Python transport handle is an optional number. Handle values are not interpreted.

## Findings

| source | as written | input that shows it | evidently intended | confidence | as-written member | corrected member |
|---|---|---|---|---|---|---|
| Python-SDK/src/StreamDock/Transport/LibUSBHIDAPI.py:897-910 | `__exit__` (through `__del__`) destroys the handle but keeps `_is_open`; `close` then sees no handle and leaves the flag set | `open`, then `__exit__`, then `close`, then `open` again: the second `open` is refused as "already open" | closing leaves the transport closed, so it can be opened again | not executed | LibUsbTransport.ExitThenCloseBlocksReopen | LibUsbTransport.LibUsbHidApi.CloseResettingFlag |
| CPP-SDK/src/DeviceInfo/Feature/ReadController/readcontroller.cpp:150-172 | when `dispatchEvent` returns `EveryThing`, the exact-match lookup and the catch-all lookup find the same entry | a key with only an `EveryThing` callback and a report the device does not classify: the callback runs twice | each registered callback runs once per report | not executed | CppReadController.EveryThingRunsTwice | CppReadController.KeyInvocations |
| CPP-SDK/src/DeviceInfo/Feature/ReadController/readcontroller.cpp:35-39 | a read of -1 (disconnect) calls `stopWorkerThread`, which joins the read thread; on the worker itself that is a self-join | the device disconnects while the worker loop is reading: `join` throws `resource_deadlock_would_occur` | a disconnect seen by the worker only stops the loop | not executed | CppReadController.DisconnectOnWorkerThrows | CppReadController.ReadController.ReadOnWorker |
| CPP-SDK/src/DeviceManager/DeviceEnumerator/deviceenumerator.cpp:136-150 | `close_device` frees the handle with `hid_close` but keeps it stored | `open_device(p)`, `close_device(p)`, `send_to_path(p, data)`: the write goes to the freed handle | closing clears the stored handle, so the next send opens the device again | not executed | CppDeviceEnumerator.CloseThenSendAsWritten | CppDeviceEnumerator.Close |
| CPP-SDK/src/DeviceInfo/Feature/GifController/gifcontroller.cpp:212-229 | the stream setters store any number of delays, and the worker reads `frameDelays[currentFrame]` unchecked | `setKeyGifStream` with two frames and one delay: the second pass reads past the delays | every frame has a delay, or the index is checked | not executed | CppGifController.ShortDelaysOverrun | CppGifController.Advance |
| CPP-SDK/ImgProcesser/src/Gif2ImgFrame/Gif2ImgFrame.cpp:247-249 | the result is sized from `impl_->gif->ImageCount` before the validity check | a file giflib cannot open (no GIF loaded): the image count is read through a null `gif`; latent through `readGifWithDelays`, which checks `isValid()` first (streamdock.cpp lines 381 to 401), so only a direct caller reaches it | a GIF that failed to load gives no frames | not executed | CppGifFrames.FramesAsWritten | CppGifFrames.EncodeFramesWithDelay |
| CPP-SDK/ImgProcesser/src/Gif2ImgFrame/Gif2ImgFrame.cpp:57-77 | `DISPOSE_PREVIOUS` swaps in a copy of the canvas taken a moment earlier, in the same call, so it changes nothing | a one-pixel GIF whose red first image declares `DISPOSE_PREVIOUS`, followed by a fully transparent image: as written the second frame is still red, where restoring would show black | after an image that declares `DISPOSE_PREVIOUS`, the canvas goes back to what it was before that image was drawn, also after two such images in a row and after a `DISPOSE_BACKGROUND` clear (`TwoPreviousInARow`, `PreviousAfterBackground`) | not executed | CppGifFrames.PreviousIgnored | CppGifFrames.Composed |
