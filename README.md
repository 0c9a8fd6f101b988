# lppy Launchpad drivers, modelled in Dafny

This project models the core of `lppy`, a Python driver for the Novation Launchpad family of
MIDI grid controllers. It covers the classic two-colour Launchpad, the Launchpad Pro and the
Launchpad Mini MK3. The driver turns LED requests into MIDI wire messages and turns inbound
button messages back into pad numbers. The model replaces every MIDI port with a log of the
wire messages it was given, and states what each operation appends to that log.

Modules, following the Python package:

- `Enums` (`lppy/enums.py`): the `Color` and `Scroll` enumerations and `RGB.scale`.
- `Errors` (`lppy/errors.py`): the error codes and the exception classes, with their messages
  and their string form `ClassName(code: message)`.
- `Messages` (`lppy/message.py`): the `Action` enumeration and `Message.duration`.
- `Midi` (`lppy/midi.py`):
  - the inbound message state;
  - `OutputDevice` as a class holding the sent log, with `send` and `send_sysex` framing;
  - `InputDevice` as a class holding its two queues and its callback list (status filter,
    FIFO read, flush, duplicate-free callbacks);
  - case-insensitive port search and the `no`-th match that `open_device` picks.
- `Glyphs` (`lppy/base.py` `_limit`, and the `write_char` loops of `lppy/models/*.py`):
  - the 8x8 bitmap font, with the glyph table as a parameter;
  - the pixels one character draws at a lateral offset.
- `Scrolling` (`lppy/base.py`): the `write_string` schedule, i.e. which character is drawn at
  which offset in each step, for left, right and no scrolling.
- `Protocol` (`lppy/models/*.py`): the per-model encodings, as pure functions:
  - LED addressing and colour packing;
  - `led_on` with its selection error;
  - the system-exclusive blocks for layout, mode and all-LEDs;
  - the Mini MK3's 81-note `led_all_on`.
- `Launchpads` (`lppy/base.py`, `lppy/models/*.py`): the current driver as one class,
  `Launchpad`.
  - The class is tagged with its model, which replaces the Python subclass chain.
  - It holds the `input` and `output` devices, which `open` and `close` update.
  - Each method is proved to send exactly the messages of its `Protocol` or `Scrolling`
    specification.
- `LegacyProtocol` and `LegacyDrivers` (`lppy/launchpad.py`, `lppy/launchpad_pro.py`,
  `lppy/launchpad_mini_mk3.py`): the older per-model API.
  - `LegacyProtocol` holds the pure encodings and decoders. Lemmas show where they agree
    with the current driver, and that the button decoders invert the LED writers.
  - `LegacyDrivers` holds the imperative writers. The `write_raw` and `write_raw_sysex`
    calls these files make append to the log.
- `Layouts` (`lppy/layout.py`): the button layer.
  - Buttons with an on/off/err state.
  - The id-to-button map, loaded from configuration entries.
  - `reset_buttons`, `execute` and the inbound-event `callback`.

On the legacy Pro, the LED writers compare the mode string exactly as given, but the button
decoder lower-cases it (`lppy/launchpad_pro.py:317` against `:633`). With a mode such as `"Pro"`,
the round trip therefore fails. `LegacyProtocol.MixedCaseModeDiffers` states this and
`LegacyProtocol.RgbXYButtonRoundTrip` proves the round trip for lower-case modes. A button's
`color_err` is stored, but `light_on` never shows it: the error state is lit in the off colour,
as `lppy/layout.py:36-42` does.

## Model

| member | source | states |
|---|---|---|
| Enums.ColorOf | lppy/enums.py:10-14 | `Color(v)`: a found colour has code `v`; no colour has a code that is not 0, 3, 5 or 17 (the ValueError case) |
| Enums.ColorRoundTrip | lppy/enums.py:10-14 | every colour is found again from its code, so the codes are distinct |
| Enums.ScrollOf | lppy/enums.py:17-20 | `Scroll(v)`: a found direction has value `v`; only 0, -1 and 1 name a direction |
| Enums.ScrollRoundTrip | lppy/enums.py:17-20 | every scroll direction is found again from its value |
| Enums.RGB.Scale | lppy/enums.py:29-35 | each channel in 0..255 is mapped into [minimum, maximum] |
| Enums.ScaleChannel | lppy/enums.py:32 | one channel of `scale`, truncated toward zero like `int()`, lands in [minimum, maximum] |
| Enums.NumeratorInRange | lppy/enums.py:32 | the truncated quotient of the scaling formula stays between the two bounds |
| Enums.ScaleEndpoints | lppy/enums.py:29-35 | channel 0 scales to minimum and channel 255 to maximum |
| Enums.ScaleMonotone | lppy/enums.py:29-35 | a larger channel never scales to a smaller value |
| Errors.ErrorCode.Name | lppy/errors.py:7-11 | the member name printed by `__str__` holds no `:` |
| Errors.LaunchpadError.ClassName | lppy/errors.py:21-23 | the class name holds no `(`, so the string form can be split |
| Errors.NewLaunchpadError | lppy/errors.py:17-19 | keeps the message and code (default `unknown`); class `LaunchpadError` |
| Errors.NewDeviceNotFound | lppy/errors.py:31-48 | always the device-not-found code; keeps name and direction |
| Errors.NewInputDeviceNotFound | lppy/errors.py:51-53 | device-not-found code, own class name, the message of an input-direction `DeviceNotFound` |
| Errors.NewOutputDeviceNotFound | lppy/errors.py:56-58 | device-not-found code, own class name, the message of an output-direction `DeviceNotFound` |
| Errors.NewLEDSelectionError | lppy/errors.py:61-70 | LED-selection code; keeps n, x and y |
| Errors.NotFoundMessage | lppy/errors.py:42-47 | the message ends with the name in brackets followed by `] not found.` |
| Errors.NotFoundMessageDeterminesDirection | lppy/errors.py:42-47 | different directions (input, output, other) give different messages |
| Errors.ParseJoin | lppy/errors.py:25-26 | a string laid out as `cls(code: msg)` splits back into its three parts |
| Errors.StrRoundTrip | lppy/errors.py:25-26 | `str(e)` is `ClassName(codeName: message)` and splits back into exactly those parts |
| Messages.Message.Duration | lppy/message.py:21-25 | a non-zero duration only for a click; a click's duration is its time difference |
| Messages.DefaultsHaveNoDuration | lppy/message.py:11-25 | a message built from the required fields has intensity 0 and duration 0 |
| Midi.MidiMessage.State | lppy/midi.py:20-25 | the state is `on` exactly when the intensity is 127 |
| Midi.OnOffComplementary | lppy/midi.py:32-38 | exactly one of `on` and `off` holds; `on` iff intensity 127 |
| Midi.Bytes | lppy/midi.py:117-131 | `send` hands three bytes unchanged; `send_sysex` frames the payload with 0xF0 and 0xF7 |
| Midi.SysexRoundTrip | lppy/midi.py:121-131 | stripping the two markers gives the payload back |
| Midi.RemoveFirstMultiset | lppy/midi.py:108-110 | `list.remove` takes away one occurrence of the element and nothing else |
| Midi.RemoveFirstNoDuplicates | lppy/midi.py:104-110 | on a duplicate-free list, removal leaves no occurrence and no duplicates |
| Midi.OutputDevice.constructor | lppy/midi.py:113-115 | an opened port with nothing sent |
| Midi.OutputDevice.Send | lppy/midi.py:117-119 | appends exactly one three-byte message to what was sent |
| Midi.OutputDevice.SendSysex | lppy/midi.py:121-131 | appends exactly one system-exclusive message to what was sent |
| Midi.OutputDevice.Close | lppy/midi.py:49-52 | the port is released; the log is kept |
| Midi.InputDevice.constructor | lppy/midi.py:56-66 | opened, both queues and the callback list empty |
| Midi.InputDevice.Receive | lppy/midi.py:68-74 | a note-on or control-change message goes to the end of both queues; any other status changes nothing |
| Midi.InputDevice.Read | lppy/midi.py:90-95 | returns and removes the oldest message; None when the queue is empty |
| Midi.InputDevice.Flush | lppy/midi.py:97-102 | both queues are empty afterwards; nothing else changes |
| Midi.InputDevice.SetCallback | lppy/midi.py:104-106 | appends the callback only when it is not yet registered; no duplicates |
| Midi.InputDevice.RemoveCallback | lppy/midi.py:108-110 | removes the callback once when registered; the list stays duplicate-free |
| Midi.InputDevice.Close | lppy/midi.py:86-88 | the port is released; queues and callbacks are kept |
| Midi.ReadIsFifo | lppy/midi.py:68-95 | two button messages are read back in arrival order; a non-button status is not queued |
| Midi.Lower | lppy/midi.py:162 | lower-casing keeps the length and maps each character |
| Midi.LowerIdempotent | lppy/midi.py:162 | lower-casing twice is lower-casing once |
| Midi.MatchIsCaseInsensitive | lppy/midi.py:162 | whether a port matches does not depend on the case of either name |
| Midi.SearchForDevice | lppy/midi.py:137-169 | true iff some port name contains the name, ignoring case |
| Midi.CountMatches | lppy/midi.py:207-211 | the number of matching ports is at most the number of ports |
| Midi.CountMatchesMonotone | lppy/midi.py:207-211 | a longer prefix of the port list never has fewer matches |
| Midi.NthMatchUnique | lppy/midi.py:207-213 | only one port is the `no`-th match, so the port opened is determined |
| Midi.NotFoundError | lppy/midi.py:193-197 | the error of a direction is a device-not-found error for that direction and name |
| Midi.OpenDevice | lppy/midi.py:171-217 | no name: nothing opened; otherwise it opens iff `no` is below the number of matches, opens the `no`-th match, and raises the direction's not-found error otherwise |
| Glyphs.Limit | lppy/base.py:158-161 | `_limit`: the result is at least `minimum`, at most `maximum` when the bounds are ordered, `n` itself inside the range and the nearer bound outside it |
| Glyphs.LimitIdempotentMonotone | lppy/base.py:158-161 | clamping twice equals clamping once; clamping keeps order |
| Glyphs.GlyphOf | lppy/models/launchpad.py:134 | the glyph of a character is the table entry of its code point, or of 255 above 255 |
| Glyphs.BitIsBinaryDigit | lppy/models/launchpad.py:142 | `codes[index] & 0x80 >> j` tests binary digit `7 - j` of the row byte |
| Glyphs.CellOfRowBase | lppy/models/launchpad.py:138-141 | the LED number of row `row`, column `column` decodes back to that cell, on both pad layouts |
| Glyphs.RowPixelsClosedForm | lppy/models/launchpad.py:139-145 | one pixel row draws each visible column once, left to right, with the glyph bit shifted by `offset` |
| Glyphs.RowPixelsShow | lppy/models/launchpad.py:138-146 | every LED a pixel row draws is in that row and shows the glyph bit that falls on it |
| Glyphs.RowPixelsCover | lppy/models/launchpad.py:138-146 | every visible column of the row is drawn |
| Glyphs.GlyphPixelsSize | lppy/models/launchpad.py:138-146 | the character draws its visible width in each of the eight rows |
| Glyphs.GlyphPixelsShow | lppy/models/launchpad.py:138-146 | the drawn pixels are exactly the glyph shifted by `offset` and cut to the 8x8 matrix |
| Glyphs.CharPixels | lppy/models/pro.py:174-188 | `write_char` makes `8 * width` calls, the width being the part of the glyph left on the matrix |
| Glyphs.CharPixelsOnMatrix | lppy/models/launchpad.py:132-146 | every LED `write_char` addresses lies on the 8x8 matrix (0..119, column below 8 on the two-colour pad; 11..88, last digit 1..8 on the RGB pads) |
| Scrolling.EvenDraw | lppy/base.py:105-110 | the first call of a step draws a character of the padded text at an offset in -7..8 |
| Scrolling.OddDraw | lppy/base.py:111-120 | the second call of a step draws a character of the padded text at an offset in -7..8 |
| Scrolling.StepDraws | lppy/base.py:104-120 | a step makes the first call while `n <= 8 * len` and the second once `n > 7`, both with a character of the text |
| Scrolling.Ascending | lppy/base.py:104 | every call of the left-scroll loop draws a character of the padded text at an offset in -7..8 |
| Scrolling.Descending | lppy/base.py:132 | every call of the right-scroll loop draws a character of the padded text at an offset in -7..8 |
| Scrolling.StillSchedule | lppy/base.py:150-156 | without scrolling, each character is drawn four times in place, in order |
| Scrolling.AscendingSize | lppy/base.py:104-120 | the number of calls of the first `k` left-scroll steps |
| Scrolling.DescendingSize | lppy/base.py:132-148 | the number of calls of the right-scroll steps between two bounds |
| Scrolling.ScheduleSizes | lppy/base.py:94-156 | a left scroll makes `16 * len + 17` calls, a right scroll `16 * len + 26`, no scroll `4 * len` |
| Scrolling.StepShowingCharacter | lppy/base.py:104-120 | at step `8 * i + 8` character `i` of the padded text is drawn at offset 0 |
| Scrolling.LeftScrollShowsEveryCharacter | lppy/base.py:102-121 | a left scroll shows every character of its padded text in place at some step |
| Scrolling.RightScrollShowsEveryCharacter | lppy/base.py:123-149 | a right scroll shows every character of its padded text in place at some step |
| Protocol.ClassicColor | lppy/models/launchpad.py:82-97 | `_get_color`: red and green each clamped to 0..3, red in the low nibble, green in the high one; the byte is at most 0x33 |
| Protocol.ClassicColorRoundTrip | lppy/models/launchpad.py:82-97 | both brightness levels are read back from the colour byte |
| Protocol.RgbAddressRoundTrip | lppy/models/pro.py:164-167 | `90 - 10 * y + x` for an in-range pair lies in 0..99 and gives `x` and `y` back |
| Protocol.RgbAddressInjective | lppy/models/pro.py:164-167 | two in-range coordinate pairs never address the same pad |
| Protocol.RgbLedMsgLayout | lppy/models/mini_mk3.py:128-134 | the set-LED block is the model's header, the command (11 on the Pro; 3, 3 on the Mini MK3), the LED number and the three channels |
| Protocol.ClassicLedOn | lppy/models/launchpad.py:99-130 | fails iff the selection is invalid, with the selection error; top-row numbers 200..207 become control changes `n - 96` and `(x, 0)` becomes control change `x + 104`, everything else a note-on with the raw number, always with the colour byte |
| Protocol.RgbLedOn | lppy/models/pro.py:146-172 | fails iff the number is outside 0..99 or the coordinates outside 0..9, with the selection error; otherwise the set-LED block for the selected pad with the colour scaled to 0..63 |
| Protocol.LedOnMsg | lppy/base.py:70-88 | `led_on` of each model fails exactly on an invalid selection and then raises the selection error carrying n, x and y |
| Protocol.RgbLedOnChannelsInRange | lppy/models/pro.py:154-163 | every channel sent to an RGB pad lies in 0..63 |
| Protocol.XYSelectsNumber | lppy/models/launchpad.py:121-128 | selecting by coordinates sends the same message as selecting by the number they stand for |
| Protocol.LedOnNumber | lppy/models/launchpad.py:113-120 | a valid number is lit with exactly the per-number message |
| Protocol.PixelMsgs | lppy/models/launchpad.py:142-145 | one message per drawn pixel |
| Protocol.CharPixelsAllSelect | lppy/models/pro.py:180-188 | every pixel `write_char` draws is a valid LED, so drawing never raises |
| Protocol.Mk3AllOn | lppy/models/mini_mk3.py:114-116 | the `k`-th note-on of the Mini MK3's `led_all_on` carries note `(x + 1) + 10 * (y + 1)` and the colour code |
| Protocol.Mk3AllOnNext | lppy/models/mini_mk3.py:114-116 | the nested loops send the notes in that order |
| Protocol.Mk3Column | lppy/models/mini_mk3.py:115-116 | the inner loop sends one note per row |
| Protocol.Mk3AllOnColumn | lppy/models/mini_mk3.py:114-116 | the flat sequence is the columns one after another |
| Protocol.Mk3AllOnCoversBlock | lppy/models/mini_mk3.py:114-116 | the 81 notes are distinct and cover the block 11..99 whose two digits are both 1..9 |
| Protocol.AllOnMsgs | lppy/models/launchpad.py:67-80 | `led_all_on`: a reset (176, 0, 0) or all-on (176, 0, 127) on the two-colour pad, one all-LEDs block on the Pro, 81 note-ons with the colour code on the Mini MK3 |
| Protocol.ProLayout.Value | lppy/models/pro.py:113-124 | the Pro layout values lie in 0x00..0x0A |
| Protocol.Mk3Layout.Value | lppy/models/mini_mk3.py:70-76 | the Mini MK3 layout values are 0x00, 0x04, 0x05, 0x06, 0x0D and 0x7F |
| Protocol.LayoutValuesAreEnumerations | lppy/models/pro.py:113-124 | a value is a layout value iff some member has it, and no two members share one |
| Protocol.LayoutMsg | lppy/models/mini_mk3.py:95-101 | `set_layout`: a seven-byte block, the model's header then the layout value |
| Protocol.ModeMsg | lppy/models/pro.py:138-140 | `set_mode`: a seven-byte block, the model's header then the mode value |
| Protocol.CommandsDistinct | lppy/models/pro.py:130-144 | layout, mode and all-LEDs blocks never coincide |
| Protocol.LedOnAsWritten | lppy/models/launchpad.py:88-91 | `led_on` as written reads `color.r`, which an `RGB` does not have: every valid selection ends in AttributeError |
| Protocol.LedOnAsWrittenNeverSends | lppy/models/pro.py:161-163 | as written no `led_on` ever sends, while the corrected `LedOnMsg` sends for every valid selection |
| Launchpads.CharMsgsSize | lppy/models/launchpad.py:132-146 | `write_char` sends one message per visible pixel and never fails |
| Launchpads.FlatMapAppend | lppy/base.py:94-156 | the messages of consecutive `write_char` calls concatenate |
| Launchpads.DrawsMsgsAppend | lppy/base.py:94-156 | the messages of two runs of `write_char` calls are the messages of the first followed by those of the second |
| Launchpads.DrawsMsgsSnoc | lppy/base.py:104-120 | one more `write_char` call appends exactly that call's messages |
| Launchpads.PixelMsgsAppend | lppy/models/launchpad.py:138-146 | the messages of two runs of pixels concatenate |
| Launchpads.MatrixSelects | lppy/models/pro.py:180-183 | every LED of the 8x8 matrix is a valid `led_on` number on every model |
| Launchpads.Launchpad.constructor | lppy/base.py:16-19 | no input and no output device yet |
| Launchpads.Launchpad.Close | lppy/base.py:35-42 | an open input and an open output are closed and dropped; absent or closed devices are left alone; the Mini MK3 first sends the keys layout (mini_mk3.py:87-93) |
| Launchpads.Launchpad.Open | lppy/base.py:24-33 | the devices open before the call end up closed, the Mini MK3's old output after the keys layout; then opens the model's `no`-th matching input and output ports; raises the not-found error of the first direction that has no such port; the Mini MK3 then sends programmer mode and layout (mini_mk3.py:82-85) |
| Launchpads.Launchpad.OpenDevices | lppy/base.py:28-33 | with both devices closed: opens the `no`-th matching input and output ports, or raises the not-found error of the first direction without one; the Mini MK3 then sends its opening messages |
| Launchpads.Launchpad.SendOpening | lppy/models/mini_mk3.py:82-85 | the Mini MK3 sends programmer mode, then the programmer layout; the other models send nothing |
| Launchpads.Launchpad.FlushButtons | lppy/base.py:44-52 | both input queues are empty; the callbacks and port are kept |
| Launchpads.Launchpad.SetLayout | lppy/models/pro.py:130-136 | sends exactly the model's layout block |
| Launchpads.Launchpad.SetMode | lppy/models/mini_mk3.py:103-105 | sends exactly the model's mode block |
| Launchpads.Launchpad.LedAllOn | lppy/models/mini_mk3.py:107-116 | sends exactly the model's `led_all_on` messages, in loop order on the Mini MK3 |
| Launchpads.Launchpad.LightColumn | lppy/models/mini_mk3.py:115-116 | one pass of the inner loop sends the nine notes of column `x` |
| Launchpads.Launchpad.Reset | lppy/base.py:54-59 | sends the `led_all_on` messages for black |
| Launchpads.Launchpad.LedOn | lppy/models/launchpad.py:99-130 | a valid selection sends exactly its one message; an invalid one sends nothing and raises the selection error with n, x and y |
| Launchpads.Launchpad.WriteChar | lppy/models/launchpad.py:132-146 | sends exactly the messages of the character's shifted glyph, row by row |
| Launchpads.Launchpad.DrawRow | lppy/models/pro.py:181-187 | the inner loop sends one message per visible pixel of the row, left to right |
| Launchpads.Launchpad.WriteString | lppy/base.py:94-156 | sends exactly the messages of the `write_char` schedule of the text and scroll direction |
| Launchpads.Launchpad.ScrollLeftSteps | lppy/base.py:102-121 | the left-scroll loop sends the messages of steps 0 up to the end, in order |
| Launchpads.Launchpad.ScrollRightSteps | lppy/base.py:123-149 | the right-scroll loop sends the messages of the steps counting down to 1, in order |
| Launchpads.Launchpad.WriteStill | lppy/base.py:150-156 | without scrolling, each character's messages are sent four times, in text order |
| Launchpads.Launchpad.RepeatChar | lppy/base.py:153-156 | the inner loop draws one character four times |
| Launchpads.Launchpad.ScrollStep | lppy/base.py:105-120 | one step sends the messages of its one or two `write_char` calls |
| Launchpads.DrawsMsgsSize | lppy/base.py:94-156 | a run of calls of equal visible width sends `8 * width` messages per call |
| Launchpads.StillStringSize | lppy/base.py:150-156 | writing without scrolling sends 256 messages per character |
| LegacyProtocol.LedGetColor | lppy/launchpad.py:153-170 | `led_get_color`: red in the low nibble and green in the high one, each clamped to 0..3; the byte is at most 0x33 |
| LegacyProtocol.LedGetColorAgrees | lppy/launchpad.py:153-170 | the legacy colour packing equals the current driver's `_get_color` |
| LegacyProtocol.ClassicRawCases | lppy/launchpad.py:172-188 | a raw number sends one message exactly when it is 0..120 (a note-on with the number) or 200..207 (controller 104..111), both with the packed colour |
| LegacyProtocol.ClassicXYNumber | lppy/launchpad.py:202 | `((y - 1) << 4) \| x` is `16 * (y - 1) + x` for x in 0..8 |
| LegacyProtocol.ClassicRawButtonRoundTrip | lppy/launchpad.py:390-401 | the button message of a raw LED number decodes to that number |
| LegacyProtocol.ClassicXYButtonRoundTrip | lppy/launchpad.py:403-423 | `button_state_xy` inverts `led_control_xy` on every pair that lights an LED; the corner (8, 0) sends nothing |
| LegacyProtocol.RapidMsgs | lppy/launchpad.py:225-230 | the first `k` messages of `led_control_raw_rapid` |
| LegacyProtocol.DataBytes | lppy/launchpad.py:228-230 | two data bytes per message |
| LegacyProtocol.Padded | lppy/launchpad.py:229 | the LED list padded to even length |
| LegacyProtocol.RapidMsgsPrefix | lppy/launchpad.py:227-230 | every message of the loop so far has status 146, and the data bytes are the padded LED list's prefix |
| LegacyProtocol.RapidMsgsCarryLeds | lppy/launchpad.py:204-230 | `led_control_raw_rapid` sends ceil(n / 2) messages whose data bytes are the LED values in order, plus a single 0 after an odd tail |
| LegacyProtocol.AllOnCode | lppy/launchpad_mini_mk3.py:194-202 | the colour code is white (3) when omitted, otherwise clamped to 0..127 |
| LegacyProtocol.LegacyAllOnAgrees | lppy/launchpad.py:269-281 | for a palette colour, legacy `led_all_on` sends what the current driver sends |
| LegacyProtocol.LegacyResetAgrees | lppy/launchpad_pro.py:552-557 | legacy `reset` sends what the current driver's `led_all_on(Black)` sends |
| LegacyProtocol.ColorByNameCases | lppy/launchpad_pro.py:206-211 | every name gives a palette code; an unknown name gives black; each palette member's name gives its code |
| LegacyProtocol.Shl1 | lppy/launchpad_mini_mk3.py:152-154 | `v << 1` doubles a 6-bit channel |
| LegacyProtocol.RgbRawCases | lppy/launchpad_mini_mk3.py:125-158 | a number sends one block exactly when it is 0..99: the current set-LED block with the clamped colour, doubled on the Mini MK3; channels within 0..63 (Pro) or even and at most 126 (Mini MK3) |
| LegacyProtocol.PaintExplicit | lppy/launchpad_pro.py:213-243 | with an explicit blue, `led_control_raw` paints exactly the colour given |
| LegacyProtocol.PulseFlashCases | lppy/launchpad_mini_mk3.py:160-192 | pulse and flash send one message exactly for 0..99: note-ons on channels 3 and 2 with a clamped code (white by default) on the Mini MK3, blocks that differ only in the command byte on the Pro |
| LegacyProtocol.XYAddress | lppy/launchpad_pro.py:312-321 | coordinates name a pad exactly when both lie in 0..9, and that pad lies in 0..99 |
| LegacyProtocol.XYWritersCases | lppy/launchpad_pro.py:299-419 | each coordinate writer sends one message exactly for coordinates in 0..9 (and a colour list of at least three), always to the pad the coordinates stand for |
| LegacyProtocol.RgbButtonRaw | lppy/launchpad_pro.py:562-608 | a result exactly for note-on and controller messages, namely the number and the value |
| LegacyProtocol.RgbXYButtonRoundTrip | lppy/launchpad_pro.py:610-643 | with a lower-case mode, `button_state_xy` reads back the coordinates that `led_control_xy` lit, in classic and in pro mode |
| LegacyProtocol.MixedCaseModeDiffers | lppy/launchpad_pro.py:317-318 | the writers compare the mode as written and the decoder in lower case, so with "Pro" the pad lit for (0, 0) reads back as (1, 0) |
| LegacyProtocol.BmpDelayRange | lppy/launchpad_pro.py:196-200 | the clock period of `led_control_bmp` is 10..62 ms |
| LegacyProtocol.ClockMsgs | lppy/launchpad_pro.py:202-203 | `k` clock messages |
| LegacyProtocol.ClockMsgsAreClocks | lppy/launchpad_pro.py:202-204 | every message of `led_control_bmp` is a MIDI beat clock (248, 0, 0) |
| LegacyProtocol.LegacyLayoutModeAgree | lppy/launchpad_mini_mk3.py:86-116 | `led_set_layout` and `led_set_mode` send at most one block, exactly for the accepted values, and that block is the current driver's |
| LegacyProtocol.LegacyOpenDefaults | lppy/launchpad_pro.py:110-121 | a failed open sends nothing; with the default names the Pro sends Live mode and the Mini MK3 programmer mode (launchpad_mini_mk3.py:64-75) |
| LegacyProtocol.PaintPixelsSnoc | lppy/launchpad_pro.py:442-450 | one more pixel appends that pixel's `led_control_raw` messages |
| LegacyProtocol.PaintPixelsAppend | lppy/launchpad_pro.py:442-450 | the messages of two runs of pixels concatenate |
| LegacyProtocol.PaintPixelsSize | lppy/launchpad_pro.py:442-450 | each matrix pixel takes exactly one message |
| LegacyProtocol.LegacyCharMsgsSize | lppy/launchpad.py:285-309 | a character sends one message per visible pixel; the two-colour pad sends nothing for codes above 255 |
| LegacyProtocol.PaintPixelsClassicAgrees | lppy/launchpad.py:301-309 | on matrix pixels the legacy two-colour painting equals the current driver's |
| LegacyProtocol.LegacyCharClassicAgrees | lppy/launchpad.py:285-309 | the legacy two-colour `led_control_char` draws a character exactly as the current `write_char` does |
| LegacyProtocol.LegacyDrawsMsgsAppend | lppy/launchpad.py:329-388 | the messages of two runs of `led_control_char` calls concatenate |
| LegacyProtocol.LegacyDrawsMsgsSnoc | lppy/launchpad.py:331-349 | one more call appends that call's messages |
| LegacyProtocol.LegacyDescendingStep | lppy/launchpad.py:362-381 | one more right-scroll step appends exactly that step's messages |
| LegacyProtocol.LegacyScroll | lppy/launchpad.py:329-388 | -1 scrolls left, 1 right; no direction and every other value, such as 2, mean no scrolling |
| LegacyProtocol.LegacyDrawsClassicAgrees | lppy/launchpad.py:311-388 | over codes up to 255, the legacy two-colour string drawing equals the current driver's |
| LegacyDrivers.LegacyLaunchpad.constructor | lppy/launchpad.py:8-17 | nothing sent yet |
| LegacyDrivers.LegacyLaunchpad.WriteRaw | lppy/launchpad.py:151 | appends one three-byte message |
| LegacyDrivers.LegacyLaunchpad.WriteRawSysex | lppy/launchpad_pro.py:241-243 | appends one system-exclusive block |
| LegacyDrivers.LegacyLaunchpad.Open | lppy/launchpad_pro.py:110-121 | returns the base open's result and sends the model's opening blocks only after a successful open |
| LegacyDrivers.LegacyLaunchpad.Reset | lppy/launchpad.py:146-151 | sends the model's reset messages (launchpad_mini_mk3.py:213-218, launchpad_pro.py:552-560) |
| LegacyDrivers.LegacyLaunchpad.LedSetLayout | lppy/launchpad_pro.py:131-149 | sends the layout block exactly for an accepted value |
| LegacyDrivers.LegacyLaunchpad.LedSetMode | lppy/launchpad_mini_mk3.py:106-116 | sends the mode block exactly for 0 or 1 |
| LegacyDrivers.LegacyLaunchpad.LedSetButtonLayoutSession | lppy/launchpad_mini_mk3.py:118-123 | sends the session layout block |
| LegacyDrivers.LegacyLaunchpad.LedControlBmp | lppy/launchpad_pro.py:173-204 | sends 28 beat clocks |
| LegacyDrivers.LegacyLaunchpad.LedControlAutomap | lppy/launchpad.py:256-267 | sends controller `104 + number` with the packed colour for 0..7, nothing otherwise |
| LegacyDrivers.LegacyLaunchpad.LedControlRaw | lppy/launchpad.py:172-188 | sends the model's raw-LED messages for the call's colour (launchpad_pro.py:213-243, launchpad_mini_mk3.py:125-158) |
| LegacyDrivers.LegacyLaunchpad.ClassicControlXY | lppy/launchpad.py:190-202 | sends the two-colour coordinate messages: top row through automap, the rest through the raw number |
| LegacyDrivers.LegacyLaunchpad.LedControlXY | lppy/launchpad_pro.py:299-323 | sends the raw-LED messages for the pad the coordinates stand for |
| LegacyDrivers.LegacyLaunchpad.LedControlRawRapid | lppy/launchpad.py:204-230 | sends the LED values two at a time, ceil(n / 2) messages |
| LegacyDrivers.LegacyLaunchpad.LedControlRawRapidHome | lppy/launchpad.py:249-254 | sends the home controller (176, 1, 0) |
| LegacyDrivers.LegacyLaunchpad.LedControlRawByCode | lppy/launchpad_pro.py:245-261 | sends a note-on with the palette code (white by default) for numbers 0..99 |
| LegacyDrivers.LegacyLaunchpad.LedControlPulseByCode | lppy/launchpad_mini_mk3.py:160-173 | sends the model's pulse message (launchpad_pro.py:263-278) |
| LegacyDrivers.LegacyLaunchpad.LedControlFlashByCode | lppy/launchpad_mini_mk3.py:175-192 | sends the model's flash message (launchpad_pro.py:280-297) |
| LegacyDrivers.LegacyLaunchpad.LedControlXYByCode | lppy/launchpad_pro.py:325-348 | sends the by-code message for the pad the coordinates stand for |
| LegacyDrivers.LegacyLaunchpad.LedControlPulseXYByCode | lppy/launchpad_pro.py:350-371 | sends the pulse message for the pad the coordinates stand for |
| LegacyDrivers.LegacyLaunchpad.LedControlFlashXYByCode | lppy/launchpad_pro.py:373-393 | sends the flash message for the pad the coordinates stand for |
| LegacyDrivers.LegacyLaunchpad.LedControlXYByRgb | lppy/launchpad_pro.py:395-419 | sends nothing for a list of fewer than three colours; otherwise the raw-LED block for the pad |
| LegacyDrivers.LegacyLaunchpad.LedAllOn | lppy/launchpad_mini_mk3.py:194-211 | sends the model's `led_all_on` messages, in loop order on the Mini MK3 (launchpad.py:269-281, launchpad_pro.py:539-550) |
| LegacyDrivers.LegacyLaunchpad.LightColumn | lppy/launchpad_mini_mk3.py:210-211 | one pass of the inner loop sends the nine notes of column `x` |
| LegacyDrivers.LegacyLaunchpad.LedControlChar | lppy/launchpad_pro.py:421-450 | sends exactly the paint messages of the character's shifted glyph in the call's colour (launchpad.py:285-309) |
| LegacyDrivers.LegacyLaunchpad.DrawChar | lppy/launchpad.py:292-309 | the glyph loop sends one raw-LED message per visible pixel, row by row |
| LegacyDrivers.LegacyLaunchpad.PaintRow | lppy/launchpad_pro.py:443-449 | the inner loop paints the visible pixels of one row, left to right |
| LegacyDrivers.LegacyLaunchpad.LedControlString | lppy/launchpad.py:311-388 | sends exactly the messages of the `led_control_char` schedule for the text and direction (launchpad_pro.py:452-537) |
| LegacyDrivers.LegacyLaunchpad.ScrollLeftSteps | lppy/launchpad.py:329-350 | the left-scroll loop sends steps 0 up to the end, in order |
| LegacyDrivers.LegacyLaunchpad.ScrollRightSteps | lppy/launchpad.py:351-381 | the right-scroll loop sends the steps counting down to 1, in order |
| LegacyDrivers.LegacyLaunchpad.WriteStill | lppy/launchpad.py:382-388 | without scrolling, each character is drawn four times in text order |
| LegacyDrivers.LegacyLaunchpad.RepeatChar | lppy/launchpad.py:385-388 | the inner loop draws one character four times |
| LegacyDrivers.LegacyLaunchpad.ScrollStep | lppy/launchpad.py:332-349 | one step sends its one or two `led_control_char` calls |
| Layouts.LightMsgIsLedOn | lppy/layout.py:36-42 | lighting a button is the driver's `led_on(color, n=id)` |
| Layouts.LightsOutcome | lppy/layout.py:113-114 | a run of `light_on` calls sends at most one message per button, exactly one each when nothing raises |
| Layouts.LightsOutcomeAllSelect | lppy/layout.py:113-114 | when every button's number is valid, the run raises nothing and sends each button's message in order |
| Layouts.LightsOutcomeStops | lppy/layout.py:113-114 | the first invalid button number ends the run with its selection error, after the messages of the buttons before it |
| Layouts.LightsOutcomeFails | lppy/layout.py:113-114 | the run raises iff some button's number is invalid |
| Layouts.LightsOutcomeSnoc | lppy/layout.py:113-114 | a run that has not raised goes on with the next button |
| Layouts.LightsOutcomeStopsHere | lppy/layout.py:113-114 | once a prefix of the run has raised, nothing after it is sent |
| Layouts.ResetOutcome | lppy/layout.py:108-114 | `reset_buttons` first clears the board, then raises exactly when relighting the buttons raises |
| Layouts.ResetRelightsEach | lppy/layout.py:108-114 | with valid numbers, a reset clears the board and then relights each button once, in order, without raising |
| Layouts.ResultFromDict | lppy/layout.py:59-66 | `Result.from_dict`: fails iff `scroll` is present and names no direction; otherwise the state and text are kept, the text colour defaults to full red and the scroll to left |
| Layouts.ResultDefaults | lppy/layout.py:52-57 | a result with only a state has no text, full red and scroll left |
| Layouts.BeforeSetState | lppy/layout.py:127-133 | without text nothing is sent before `set_state` |
| Layouts.ExecuteOrder | lppy/layout.py:116-134 | when nothing raises, `execute` sends the text, the cleared board and every button, then the button in its new colour; without text only the button |
| Layouts.EventAction | lppy/layout.py:136-144 | only a note-on at velocity 127 acts: button 19 resets, a configured button runs, anything else is ignored |
| Layouts.ResetButtonNeverRuns | lppy/layout.py:139-144 | a button configured with id 19 never runs its action |
| Layouts.LoadedKeys | lppy/layout.py:99-102 | the layout's keys are exactly the ids of the entries |
| Layouts.LoadedLast | lppy/layout.py:99-102 | each id maps to the last entry that carries it |
| Layouts.FirstIdsDistinct | lppy/layout.py:99-102 | the iteration order lists every id of the layout exactly once |
| Layouts.LoadedSnoc | lppy/layout.py:100-102 | one more entry maps its id to itself and joins the order unless the id is already there |
| Layouts.OffLights | lppy/layout.py:99-104 | a fresh layout shows each button's off colour, in iteration order |
| Layouts.Button.FromDict | lppy/layout.py:22-34 | a new button is off, keeps the entry's id, action and colours, and its error colour defaults to full red |
| Layouts.Button.LightOn | lppy/layout.py:36-42 | sends the button's `led_on` in the colour of its state (off colour for the error state), or raises the selection error |
| Layouts.Button.SetState | lppy/layout.py:47-49 | the state is stored and then only this button is relit, in the colour of the new state |
| Layouts.Button.LightOffAsWritten | lppy/layout.py:44-45 | `light_off` as written names no LED: over the corrected `led_on` it always raises the selection error and sends nothing (on the two-colour pad the `led_on` finding's AttributeError comes first) |
| Layouts.Button.LightOff | lppy/layout.py:44-45 | `light_off` as intended turns this button's LED black, or raises the selection error for an invalid id |
| Layouts.Layout.constructor | lppy/layout.py:98-102 | the map has the entries' ids, each built from the last entry with that id and off; the order is the ids by first appearance |
| Layouts.Layout.AddButton | lppy/layout.py:101-102 | one pass of the loading loop stores a fresh off button under its id and leaves every other id alone |
| Layouts.Layout.ResetButtons | lppy/layout.py:108-114 | sends exactly the reset outcome of the buttons' current lights and raises what it raises |
| Layouts.Layout.RelightButtons | lppy/layout.py:113-114 | the loop relights the buttons in iteration order and stops at the first `led_on` that raises |
| Layouts.Layout.LightsOfIndex | lppy/layout.py:113-114 | entry `k` of the lights is button `ids[k]`'s LED |
| Layouts.Layout.LightsOfSnoc | lppy/layout.py:113-114 | one more id appends that button's LED |
| Layouts.Layout.LightsOfPrefix | lppy/layout.py:113-114 | the lights of a prefix of the ids are a prefix of the lights |
| Layouts.Layout.ShowText | lppy/layout.py:127-133 | when the result carries a text: the text's messages, then the reset's, raising what the reset raises; nothing at all otherwise |
| Layouts.Layout.Execute | lppy/layout.py:116-134 | an unparsable result changes nothing and reports the error; otherwise exactly the messages of the `execute` outcome are sent, and the button takes its new state unless the reset raised |
| Layouts.Layout.ApplyResult | lppy/layout.py:127-134 | when the text part raises, only its messages are sent and the state is kept; otherwise the button takes its new state and is relit after them |
| Layouts.Layout.Callback | lppy/layout.py:136-144 | an ignored message sends nothing; button 19 resets; a configured button runs `execute` |
| Layouts.Subscript | lppy/layout.py:137-139 | a subscript succeeds exactly on a tuple within its length; anything without items raises TypeError |
| Layouts.CallbackOnRawMessage | lppy/layout.py:136-144 | handed the raw rtmidi message `((status, n, value), diff)`, `callback` takes exactly the action of `EventAction` |
| Layouts.CallbackAsWritten | lppy/layout.py:137 | handed the `Message` object the input device queues (lppy/midi.py:72-74), `callback` always raises |
| Layouts.WorkerActions | lppy/midi.py:76-84 | one action at most per delivered message; a message whose callback raises is dropped |
| Layouts.WorkerNeverActs | lppy/midi.py:76-84 | as written, every delivered value is a `Message` object, so no pad press ever resets or runs a button |
| Layouts.WorkerRawActs | lppy/midi.py:76-84 | delivered raw messages, the worker takes one action per message, each `EventAction`'s |
| Layouts.Layout.Load | lppy/layout.py:77-104 | loads the buttons, then resets: the board is cleared and every button shown in its off colour, in iteration order |
| Layouts.Layout.LightsOfOff | lppy/layout.py:99-104 | freshly built buttons all show their off colour |
| Layouts.ResetAsWritten | lppy/layout.py:108-110 | `reset_buttons` as written calls `led_all_on()` without the colour every model requires, and raises TypeError |
| Layouts.ResetAsWrittenRaises | lppy/models/launchpad.py:67 | as written every reset raises, while the intended reset with black sends at least one message |
| Launchpads.Launchpad.Send | lppy/midi.py:117-131 | a message goes out through `send` or `send_sysex` and is appended to the log |
| Launchpads.DrawsMsgsSingle | lppy/models/launchpad.py:132-146 | a single call sends exactly its character's messages |
| Launchpads.PixelMsgsSnoc | lppy/models/launchpad.py:142-145 | one more valid pixel appends its `led_on` message |
| LegacyProtocol.LegacyDrawsMsgsSingle | lppy/launchpad.py:285-309 | a single call sends exactly its character's messages |
| Layouts.Layout.LightsOf | lppy/layout.py:113-114 | one LED per button id |
| Errors.NatString | lppy/errors.py:68 | `str(n)` of a natural number is a non-empty run of decimal digits |
| Errors.IntString | lppy/errors.py:68 | `str(i)` is never empty |
| Scrolling.Repeat | lppy/base.py:153-155 | `k` copies of one call |

## Left out

- rtmidi (`MidiIn`, `MidiOut`, `open_port`, `get_ports`, `send_message`, `delete`): this is a foreign library. The port names are a parameter, and a port is a log of the messages sent to it.
- The input worker thread, its stop event and `queue.Queue` locking (`lppy/midi.py:58-66`, `76-88`): these exist for concurrency. The queues are plain sequences, filled by `Midi.InputDevice.Receive`. What the worker does with the layout's callback, catching and dropping whatever it raises, is `Layouts.WorkerActions`.
- Invoking the registered callbacks: a callback is modelled only by an identifier. Only the duplicate-free list is modelled.
- All `time.sleep` and `wait_ms` pacing: it has no effect on the messages sent or their order.
- Running an action (`subprocess.check_output`, `json.loads`, `os.environ`, `PYTHONPATH`, `RUN_SCRIPT` in `lppy/layout.py`): `Layouts.Layout.Execute` takes the decoded reply as a parameter.
- Reading the layout file and resolving its path (`lppy/layout.py:77-97`): `Layouts.Layout.Load` takes the decoded entries as a parameter.
- Registering `callback` with the input device during `Layout` set-up: events are handed to `Layouts.Layout.Callback` directly.
- The glyph contents of `CHAR_TAB`: `lppy/chartab.py` is not part of this model. The table is a parameter holding 256 glyphs of 8 bytes each.
- Enums.RGB.Scale: computed on exact rationals and then truncated like `int()`. It does not model the binary floating-point rounding of `lppy/enums.py:32-34`.
- Messages.Message.Duration: the time difference `diff` is a `real`, not a binary float.
- `lppy/__main__.py`, `lppy/server.py`, `setup.py`, the `hello.py` demo and the `__init__` re-exports: these are command-line handling, an idle loop, packaging and a random demo.
- The legacy `open`, `check`, `close`, `list_all`, `button_flush` and `events_raw` (`lppy/launchpad.py:22-89`): they call port-search and read methods that `lppy/midi.py` does not define.
  - The outcome of the legacy base `open` is a parameter of `LegacyDrivers.LegacyLaunchpad.Open`.
  - The legacy `Midi` singleton is not modelled.
- Python's run-time type checks (`isinstance`) and arguments of the wrong type: every argument has the type the code expects.
- Arguments a model ignores (for example `offset_y` on the two-colour pad) are not parameters.
- `ButtonState`, `RGB(r=255)` and `RGB.parse` (`lppy/layout.py`) are not defined in `lppy/enums.py`.
  - They are modelled by intent: a three-valued state, an `RGB` with full red, and colours that are already parsed.
- Layouts.Layout.Valid: it does not carry that the iteration order is free of duplicates. `Layouts.FirstIdsDistinct` proves that this holds after loading.
- Layouts.Layout.Callback: the inbound message is the raw `(status, n, value)` triple that `lppy/layout.py:137-138` indexes, not a `Midi` message object. As written the callback is handed the `Message` object and raises TypeError, which the worker swallows, so no press ever acts. That path is modelled by `Layouts.CallbackAsWritten` and `Layouts.WorkerNeverActs`, listed under Findings.
- Launchpads.Launchpad.LedOn, LedAllOn, Reset, SetLayout, SetMode, WriteChar, WriteString and FlushButtons on a closed driver: after `close` the source sets `output` and `input` to `None`, so each of these raises AttributeError. The model requires an open output (`CanSend`, or `Selects(...) ==> CanSend()` for `LedOn`) or a present input (`input != null` for `FlushButtons`), so this error is not modelled.
- Midi.Lower: lower-cases ASCII letters only. Python's `str.lower` also folds other Unicode letters.
- Errors.NewDeviceNotFound: a direction that is not a `Direction` member is modelled as `None`, which selects the generic message.

## Findings

| source | as written | input that shows it | evidently intended | confidence | as-written member | corrected member |
|---|---|---|---|---|---|---|
| lppy/models/launchpad.py:88-91 | `led_on` reads `color.r`, `color.g`, `color.b`, but `RGB` has only `red`, `green`, `blue` (also `lppy/models/pro.py:162`, `lppy/models/mini_mk3.py:133`) | `led_on(RGB(), n=0)` on any model raises AttributeError | read `red`, `green`, `blue` and send the pad message | not executed | Protocol.LedOnAsWritten, Protocol.LedOnAsWrittenNeverSends | Protocol.LedOnMsg |
| lppy/layout.py:110 | `reset_buttons` calls `led_all_on()` with no colour, but every model's `led_all_on` requires one | any `reset_buttons()` call, including the one at the end of loading, raises TypeError | `led_all_on(Color.black)`, the base class default | not executed | Layouts.ResetAsWritten, Layouts.ResetAsWrittenRaises | Layouts.ResetOutcome, Layouts.Layout.ResetButtons |
| lppy/layout.py:45 | `light_off` calls `led_on(RGB())` without `n=self.id`, so no LED is selected | on the Pro and the Mini MK3, `light_off()` on a button with id 11 raises LEDSelectionError; on the two-colour pad the AttributeError of the first row is raised first (lppy/models/launchpad.py:112) | `led_on(RGB(), n=self.id)` | not executed | Layouts.Button.LightOffAsWritten | Layouts.Button.LightOff |
| lppy/layout.py:137 | `callback` indexes `msg[0][0]`, but the input device hands callbacks the `Message` object it queued (lppy/midi.py:72-81), which has no items; the TypeError is swallowed by `except Exception: pass` (lppy/midi.py:82-84) | a note-on 144/19/127 from the pad resets nothing, and a press of a configured button runs nothing | read status, button and value of the press, as the raw rtmidi message `((status, n, value), diff)` carries them | not executed | Layouts.CallbackAsWritten, Layouts.WorkerNeverActs | Layouts.CallbackOnRawMessage, Layouts.Layout.Callback |
