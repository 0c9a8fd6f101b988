/** The message encodings of the older per-model driver classes (the two-colour
    `Launchpad`, `LaunchpadPro` and `LaunchpadMiniMk3` of the legacy API): which
    messages each `led_control_*` call sends for its arguments (the empty
    sequence when the call returns without sending), and how the last button
    message is decoded. */
module LegacyProtocol {
  import opened Wrappers
  import opened Enums
  import opened Midi
  import opened Glyphs
  import opened Scrolling
  import opened Protocol
  import Launchpads

  // ---- two-colour Launchpad ----

  /** `led_get_color`: red and green brightness clamped to 0..3 and packed as
      `red | green << 4`; both levels can be read back from the byte. */
  function LedGetColor(red: int, green: int): (c: int)
    ensures 0 <= c <= 0x33
    ensures c % 16 == Limit(red, 0, 3) && c / 16 == Limit(green, 0, 3)
  {
    var r := Limit(red, 0, 3);
    var g := Limit(green, 0, 3);
    ((r as bv8) | ((g as bv8) << 4)) as int
  }

  /** The legacy packing is the packing of the current two-colour driver. */
  lemma LedGetColorAgrees(red: int, green: int, blue: int)
    ensures LedGetColor(red, green) == ClassicColor(RGB(red, green, blue))
  {
  }

  /** `led_control_automap`: top-row LED `number` (0..7, left to right). */
  function AutomapMsgs(number: int, red: int, green: int): seq<WireMsg> {
    if number < 0 || number > 7 then [] else [Short(176, 104 + number, LedGetColor(red, green))]
  }

  /** `led_control_raw` of the two-colour pad: 200..207 are the top row, 0..120
      the matrix and the right column. */
  function ClassicRawMsgs(number: int, red: int, green: int): seq<WireMsg> {
    if number > 199 then
      if number < 208 then AutomapMsgs(number - 200, red, green) else []
    else if number < 0 || number > 120 then []
    else [Short(144, number, LedGetColor(red, green))]
  }

  /** A raw number sends one message exactly when it is 0..120 or 200..207: a
      note-on with the number itself, or the controller 104..111 of the top
      row; both carry the packed colour. */
  lemma ClassicRawCases(number: int, red: int, green: int)
    ensures var r := ClassicRawMsgs(number, red, green);
      && |r| == (if 0 <= number <= 120 || 200 <= number <= 207 then 1 else 0)
      && forall m :: m in r ==>
        && m.Short? && m.d2 == LedGetColor(red, green)
        && (if number >= 200 then m.status == 176 && m.d1 == number - 96 && 104 <= m.d1 <= 111
            else m.status == 144 && m.d1 == number)
  {
  }

  /** The matrix number of column `x`, row `y` (1..8): `((y - 1) << 4) | x`. */
  function ClassicXYNumber(x: int, y: int): (n: int)
    requires 0 <= x <= 8 && 1 <= y <= 8
    ensures n == 16 * (y - 1) + x
  {
    ((((y - 1) as bv7) << 4) | (x as bv7)) as int
  }

  /** `led_control_xy` of the two-colour pad: row 0 is the top row, rows 1..8
      the matrix with the right column; coordinates outside 0..8 send nothing. */
  function ClassicXYMsgs(x: int, y: int, red: int, green: int): seq<WireMsg> {
    if x < 0 || x > 8 || y < 0 || y > 8 then []
    else if y == 0 then AutomapMsgs(x, red, green)
    else ClassicRawMsgs(ClassicXYNumber(x, y), red, green)
  }

  /** The last button message: status, button number, value. */
  type Triple = (int, int, int)

  /** `button_state_raw` of the two-colour pad: the number of a note message,
      or the number plus 96 for anything else (so controllers 104..111 come
      back as 200..207); pressed when the value is positive. */
  function ClassicButtonRaw(msg: Option<Triple>): Option<(int, bool)> {
    match msg
    case None => None
    case Some((status, n, v)) => Some((if status == 144 then n else n + 96, v > 0))
  }

  /** `button_state_xy` of the two-colour pad. For every integer `n`,
      `n & 0x0F` is `n mod 16` and `(n & 0xF0) >> 4` is `(n mod 256) div 16`. */
  function ClassicButtonXY(msg: Option<Triple>): Option<(int, int, bool)> {
    match msg
    case None => None
    case Some((status, n, v)) =>
      if status == 144 then Some((n % 16, n % 256 / 16 + 1, v > 0))
      else if status == 176 then Some((n - 104, 0, v > 0))
      else None
  }

  /** Pressing the button of a raw LED number reports that number: the message
      that lights it, read back as a button message, decodes to it. */
  lemma ClassicRawButtonRoundTrip(number: int, red: int, green: int, v: int)
    requires 0 <= number <= 120 || 200 <= number <= 207
    ensures var m := ClassicRawMsgs(number, red, green)[0];
      ClassicButtonRaw(Some((m.status, m.d1, v))) == Some((number, v > 0))
  {
  }

  /** `button_state_xy` inverts `led_control_xy` on every coordinate pair that
      lights an LED; the corner (8, 0) has no LED and sends nothing. */
  lemma ClassicXYButtonRoundTrip(x: int, y: int, red: int, green: int, v: int)
    requires 0 <= x <= 8 && 0 <= y <= 8
    ensures |ClassicXYMsgs(x, y, red, green)| == (if x == 8 && y == 0 then 0 else 1)
    ensures !(x == 8 && y == 0) ==>
      var m := ClassicXYMsgs(x, y, red, green)[0];
      ClassicButtonXY(Some((m.status, m.d1, v))) == Some((x, y, v > 0))
  {
    if y > 0 {
      var n := ClassicXYNumber(x, y);
      assert n % 16 == x && n % 256 / 16 == y - 1;
    }
  }

  /** The `i`-th message of `led_control_raw_rapid`: LED values `2i` and
      `2i + 1`, the second one 0 when the list ends first. */
  function RapidPair(leds: seq<int>, i: nat): WireMsg
    requires 2 * i < |leds|
  {
    Short(146, leds[2 * i], if 2 * i + 1 < |leds| then leds[2 * i + 1] else 0)
  }

  /** The first `k` messages of `led_control_raw_rapid`. */
  function RapidMsgs(leds: seq<int>, k: nat): (r: seq<WireMsg>)
    requires 2 * k <= |leds| + 1
    ensures |r| == k
  {
    if k == 0 then [] else RapidMsgs(leds, k - 1) + [RapidPair(leds, k - 1)]
  }

  /** The two data bytes of each message, in order. */
  function DataBytes(ms: seq<WireMsg>): (r: seq<int>)
    requires forall m :: m in ms ==> m.Short?
    ensures |r| == 2 * |ms|
  {
    if ms == [] then []
    else DataBytes(ms[..|ms| - 1]) + [ms[|ms| - 1].d1, ms[|ms| - 1].d2]
  }

  /** The LED list padded to even length with one 0. */
  function Padded(leds: seq<int>): (r: seq<int>)
    ensures |r| % 2 == 0 && |r| == 2 * ((|leds| + 1) / 2)
  {
    if |leds| % 2 == 1 then leds + [0] else leds
  }

  lemma {:induction false} RapidMsgsShort(leds: seq<int>, k: nat)
    requires 2 * k <= |leds| + 1
    ensures forall m :: m in RapidMsgs(leds, k) ==> m.Short? && m.status == 146
  {
    if k > 0 {
      RapidMsgsShort(leds, k - 1);
    }
  }

  lemma DataBytesSnoc(ms: seq<WireMsg>, m: WireMsg)
    requires forall x :: x in ms ==> x.Short?
    requires m.Short?
    ensures DataBytes(ms + [m]) == DataBytes(ms) + [m.d1, m.d2]
  {
    DropLast(ms, m);
  }

  /** The `k`-th message carries the padded list's two entries after the first `k - 1` pairs. */
  lemma PaddedPair(leds: seq<int>, k: nat)
    requires 0 < k && 2 * k <= |leds| + 1
    ensures var m := RapidPair(leds, k - 1);
      Padded(leds)[..2 * k] == Padded(leds)[..2 * k - 2] + [m.d1, m.d2]
  {
    var p := Padded(leds);
    TakeSnoc(p, 2 * k - 2);
    TakeSnoc(p, 2 * k - 1);
  }

  lemma {:induction false} RapidMsgsPrefix(leds: seq<int>, k: nat)
    requires 2 * k <= |leds| + 1
    ensures forall m :: m in RapidMsgs(leds, k) ==> m.Short? && m.status == 146
    ensures DataBytes(RapidMsgs(leds, k)) == Padded(leds)[..2 * k]
  {
    RapidMsgsShort(leds, k);
    if k > 0 {
      RapidMsgsPrefix(leds, k - 1);
      DataBytesSnoc(RapidMsgs(leds, k - 1), RapidPair(leds, k - 1));
      PaddedPair(leds, k);
    }
  }

  /** `led_control_raw_rapid` sends ceil(|leds| / 2) messages with status 146
      whose data bytes are the LED values in order, with one 0 after an odd
      tail. */
  lemma RapidMsgsCarryLeds(leds: seq<int>)
    ensures var ms := RapidMsgs(leds, (|leds| + 1) / 2);
      && |ms| == (|leds| + 1) / 2
      && (forall m :: m in ms ==> m.Short? && m.status == 146)
      && DataBytes(ms) == leds + (if |leds| % 2 == 1 then [0] else [])
  {
    RapidMsgsPrefix(leds, (|leds| + 1) / 2);
    assert Padded(leds)[..2 * ((|leds| + 1) / 2)] == Padded(leds);
  }

  // ---- all LEDs and reset ----

  /** The colour code of the RGB pads' `led_all_on`: white (3) when omitted,
      otherwise clamped to 0..127. */
  function AllOnCode(code: Option<int>): (v: int)
    ensures 0 <= v <= 127
    ensures code.None? ==> v == 3
    ensures code.Some? && 0 <= code.value <= 127 ==> v == code.value
  {
    if code.None? then 3 else Limit(code.value, 0, 127)
  }

  /** `led_all_on(code)`: the two-colour pad resets for code 0 and lights
      everything otherwise, the Pro sends one all-LEDs block, the Mini MK3 a
      note-on for each of its 81 pads. */
  function LegacyAllOnMsgs(model: Model, code: Option<int>): seq<WireMsg> {
    match model
    case Classic => if code == Some(0) then [Short(176, 0, 0)] else [Short(176, 0, 127)]
    case Pro => [Sysex([0, 32, 41, 2, 16, 14, AllOnCode(code)])]
    case MiniMk3 => Mk3AllOn(AllOnCode(code), 81)
  }

  /** `reset`: the two-colour pad's reset controller, `led_all_on(0)` on the
      RGB pads. */
  function LegacyResetMsgs(model: Model): seq<WireMsg> {
    if model == Classic then [Short(176, 0, 0)] else LegacyAllOnMsgs(model, Some(0))
  }

  /** For a palette colour the legacy `led_all_on` sends what the current
      driver sends. */
  lemma LegacyAllOnAgrees(model: Model, c: Color)
    ensures LegacyAllOnMsgs(model, Some(c.Value())) == AllOnMsgs(model, c)
  {
    if model == Pro {
      assert [0, 32, 41, 2, 16, 14, c.Value()] == Header(Pro) + [14, c.Value()];
    }
  }

  /** The legacy `reset` sends what the current driver's `led_all_on(Black)` sends. */
  lemma LegacyResetAgrees(model: Model)
    ensures LegacyResetMsgs(model) == AllOnMsgs(model, Black)
  {
    if model == Pro {
      assert [0, 32, 41, 2, 16, 14, 0] == Header(Pro) + [14, Black.Value()];
    }
  }

  // ---- RGB pads ----

  /** `COLORS` of the Pro. */
  const ProColors: map<string, int> := map["black" := 0, "off" := 0, "white" := 3, "red" := 5, "green" := 17]

  /** `led_get_color_by_name`: the code of a known name, black (0) otherwise. */
  function ColorByName(name: string): int {
    if name in ProColors then ProColors[name] else ProColors["black"]
  }

  /** The member name of a palette colour. */
  function PaletteName(c: Color): string {
    match c
    case Black => "black"
    case White => "white"
    case Red => "red"
    case Green => "green"
  }

  /** Every name resolves to a palette code; unknown names to black, and each
      palette colour's own name to its code. */
  lemma ColorByNameCases(name: string, c: Color)
    ensures ColorOf(ColorByName(name)).Some?
    ensures name !in ProColors ==> ColorByName(name) == 0
    ensures ColorByName(PaletteName(c)) == c.Value()
  {
  }

  /** The colour the RGB pads' legacy calls work with: when blue is omitted
      (classic compatibility) the 0..3 red and green levels are stretched by
      21 and blue is 0. */
  function Compat(red: int, green: int, blue: Option<int>): RGB {
    if blue.None? then RGB(red * 21, green * 21, 0) else RGB(red, green, blue.value)
  }

  /** Each channel clamped to 0..63. */
  function Clamp63(c: RGB): RGB {
    RGB(Limit(c.red, 0, 63), Limit(c.green, 0, 63), Limit(c.blue, 0, 63))
  }

  /** `v << 1` for a 6-bit channel. */
  function Shl1(v: int): (r: int)
    requires 0 <= v <= 63
    ensures r == 2 * v
  {
    ((v as bv7) << 1) as int
  }

  /** Every channel doubled. */
  function Doubled(c: RGB): RGB {
    RGB(2 * c.red, 2 * c.green, 2 * c.blue)
  }

  /** `led_control_raw` of the RGB pads for an explicit colour: numbers
      outside 0..99 send nothing; the Mini MK3 sends 7-bit channels. */
  function RgbRawMsgs(model: Model, number: int, c: RGB): seq<WireMsg>
    requires model != Classic
  {
    if number < 0 || number > 99 then []
    else
      var k := Clamp63(c);
      if model == Pro then [Sysex([0, 32, 41, 2, 16, 11, number, k.red, k.green, k.blue])]
      else [Sysex([0, 32, 41, 2, 13, 3, 3, number, Shl1(k.red), Shl1(k.green), Shl1(k.blue)])]
  }

  /** A valid number sends the set-LED block of the current driver for the
      clamped colour (doubled on the Mini MK3). Its three channels lie in 0..63
      on the Pro and are even and at most 126 on the Mini MK3. */
  lemma RgbRawCases(model: Model, number: int, c: RGB)
    requires model != Classic
    ensures |RgbRawMsgs(model, number, c)| == (if 0 <= number <= 99 then 1 else 0)
    ensures 0 <= number <= 99 ==>
      RgbRawMsgs(model, number, c) == [RgbLedMsg(model, number, if model == Pro then Clamp63(c) else Doubled(Clamp63(c)))]
    ensures 0 <= number <= 99 ==>
      var p := RgbRawMsgs(model, number, c)[0].payload;
      forall i :: |p| - 3 <= i < |p| ==> 0 <= p[i] <= (if model == Pro then 63 else 126) && (model == MiniMk3 ==> p[i] % 2 == 0)
  {
    if 0 <= number <= 99 {
      var k := Clamp63(c);
      var m := RgbRawMsgs(model, number, c)[0];
      if model == Pro {
        assert m.payload == Header(Pro) + [11, number, k.red, k.green, k.blue];
      } else {
        assert m.payload == Header(MiniMk3) + [3, 3, number, 2 * k.red, 2 * k.green, 2 * k.blue];
      }
    }
  }

  /** `led_control_raw` with the call's own arguments. */
  function Paint(model: Model, red: int, green: int, blue: Option<int>): RGB {
    if model == Classic then RGB(red, green, 0) else Compat(red, green, blue)
  }

  /** The messages `led_control_raw` sends for LED `number` in colour `c`. */
  function RawMsgs(model: Model, number: int, c: RGB): seq<WireMsg> {
    if model == Classic then ClassicRawMsgs(number, c.red, c.green) else RgbRawMsgs(model, number, c)
  }

  /** Passing a colour's channels with an explicit blue paints that colour. */
  lemma PaintExplicit(model: Model, number: int, c: RGB)
    ensures RawMsgs(model, number, Paint(model, c.red, c.green, Some(c.blue))) == RawMsgs(model, number, c)
  {
  }

  /** `led_control_raw_by_code`: a note-on with a palette code, white when
      omitted; the code is not checked. */
  function ByCodeMsgs(number: int, code: Option<int>): seq<WireMsg> {
    if number < 0 || number > 99 then [] else [Short(144, number, if code.None? then ProColors["white"] else code.value)]
  }

  /** `led_control_pulse_by_code`: a sysex block on the Pro (code unchecked),
      a note-on on channel 3 (status 146) on the Mini MK3, code clamped. */
  function PulseMsgs(model: Model, number: int, code: Option<int>): seq<WireMsg>
    requires model != Classic
  {
    if number < 0 || number > 99 then []
    else
      var v := if code.None? then ProColors["white"] else code.value;
      if model == Pro then [Sysex([0, 32, 41, 2, 16, 40, number, v])] else [Short(146, number, Limit(v, 0, 127))]
  }

  /** `led_control_flash_by_code`: command 35 on the Pro, a note-on on channel 2
      (status 145) on the Mini MK3. */
  function FlashMsgs(model: Model, number: int, code: Option<int>): seq<WireMsg>
    requires model != Classic
  {
    if number < 0 || number > 99 then []
    else
      var v := if code.None? then ProColors["white"] else code.value;
      if model == Pro then [Sysex([0, 32, 41, 2, 16, 35, number, v])] else [Short(145, number, Limit(v, 0, 127))]
  }

  /** Pulse and flash send one message exactly for the numbers 0..99. On the
      Mini MK3 they are note-ons on channels 3 and 2 carrying the number and a
      code in 0..127 (white when omitted); on the Pro the two blocks differ
      only in their command byte. */
  lemma PulseFlashCases(model: Model, number: int, code: Option<int>)
    requires model != Classic
    ensures |PulseMsgs(model, number, code)| == |FlashMsgs(model, number, code)| == (if 0 <= number <= 99 then 1 else 0)
    ensures 0 <= number <= 99 && model == MiniMk3 ==>
      var p, f := PulseMsgs(model, number, code)[0], FlashMsgs(model, number, code)[0];
      && p.Short? && p.status == 146 && p.d1 == number && 0 <= p.d2 <= 127
      && f.Short? && f.status == 145 && f.d1 == number && f.d2 == p.d2
      && (code.None? ==> p.d2 == 3)
    ensures 0 <= number <= 99 && model == Pro ==>
      var p, f := PulseMsgs(model, number, code)[0].payload, FlashMsgs(model, number, code)[0].payload;
      && p[..5] == f[..5] == Header(Pro) && p[5] == 40 && f[5] == 35 && p[6..] == f[6..]
  {
  }

  /** The pad number that coordinates stand for on the RGB pads: the row from
      the top (`90 - 10y`), the column rotated right by one in classic mode
      (so that x = 0 is the first matrix column and x = 9 the left column);
      None outside 0..9. */
  function XYAddress(x: int, y: int, rotate: bool): (r: Option<int>)
    ensures r.Some? <==> 0 <= x <= 9 && 0 <= y <= 9
    ensures r.Some? ==> 0 <= r.value <= 99
  {
    if x < 0 || x > 9 || y < 0 || y > 9 then None
    else Some(90 - 10 * y + (if rotate then (x + 1) % 10 else x))
  }

  /** `led_control_xy` of the RGB pads; `mode` is compared as written. */
  function RgbXYMsgs(model: Model, x: int, y: int, red: int, green: int, blue: Option<int>, mode: string): seq<WireMsg>
    requires model != Classic
  {
    match XYAddress(x, y, mode != "pro")
    case None => []
    case Some(led) => RgbRawMsgs(model, led, Compat(red, green, blue))
  }

  /** `led_control_xy_by_code`. */
  function XYByCodeMsgs(x: int, y: int, code: Option<int>, mode: string): seq<WireMsg> {
    match XYAddress(x, y, mode != "pro")
    case None => []
    case Some(led) => ByCodeMsgs(led, code)
  }

  /** `led_control_pulse_xy_by_code`. */
  function PulseXYMsgs(model: Model, x: int, y: int, code: Option<int>, mode: string): seq<WireMsg>
    requires model != Classic
  {
    match XYAddress(x, y, mode != "pro")
    case None => []
    case Some(led) => PulseMsgs(model, led, code)
  }

  /** `led_control_flash_xy_by_code`. */
  function FlashXYMsgs(model: Model, x: int, y: int, code: Option<int>, mode: string): seq<WireMsg>
    requires model != Classic
  {
    match XYAddress(x, y, mode != "pro")
    case None => []
    case Some(led) => FlashMsgs(model, led, code)
  }

  /** `led_control_xy_by_rgb`: a colour list shorter than three sends nothing;
      here `mode` is compared in lower case. */
  function XYByRgbMsgs(model: Model, x: int, y: int, colors: seq<int>, mode: string): seq<WireMsg>
    requires model != Classic
  {
    if |colors| < 3 then []
    else
      match XYAddress(x, y, Lower(mode) != "pro")
      case None => []
      case Some(led) => RgbRawMsgs(model, led, RGB(colors[0], colors[1], colors[2]))
  }

  /** The coordinate writers send one message exactly for coordinates in 0..9,
      and always to the pad the coordinates stand for; the RGB list must hold
      three channels. */
  lemma XYWritersCases(model: Model, x: int, y: int, red: int, green: int, blue: Option<int>, code: Option<int>, colors: seq<int>, mode: string)
    requires model != Classic
    ensures var valid := 0 <= x <= 9 && 0 <= y <= 9;
      && |RgbXYMsgs(model, x, y, red, green, blue, mode)| == (if valid then 1 else 0)
      && |XYByCodeMsgs(x, y, code, mode)| == (if valid then 1 else 0)
      && |PulseXYMsgs(model, x, y, code, mode)| == (if valid then 1 else 0)
      && |FlashXYMsgs(model, x, y, code, mode)| == (if valid then 1 else 0)
      && |XYByRgbMsgs(model, x, y, colors, mode)| == (if valid && |colors| >= 3 then 1 else 0)
    ensures 0 <= x <= 9 && 0 <= y <= 9 ==>
      var led := XYAddress(x, y, mode != "pro").value;
      && RgbXYMsgs(model, x, y, red, green, blue, mode) == RgbRawMsgs(model, led, Compat(red, green, blue))
      && XYByCodeMsgs(x, y, code, mode) == ByCodeMsgs(led, code)
  {
    if 0 <= x <= 9 && 0 <= y <= 9 {
      var led := XYAddress(x, y, mode != "pro").value;
      RgbRawCases(model, led, Compat(red, green, blue));
      PulseFlashCases(model, led, code);
      if |colors| >= 3 {
        RgbRawCases(model, XYAddress(x, y, Lower(mode) != "pro").value, RGB(colors[0], colors[1], colors[2]));
      }
    }
  }

  /** `button_state_raw` of the RGB pads: number and value of a note-on or
      controller message; nothing for any other status (pressure values,
      fragments of system-exclusive blocks). */
  function RgbButtonRaw(msg: Option<Triple>): (r: Option<(int, int)>)
    ensures r.Some? <==> msg.Some? && (msg.value.0 == 144 || msg.value.0 == 176)
    ensures r.Some? ==> r.value == (msg.value.1, msg.value.2)
  {
    match msg
    case None => None
    case Some((status, n, v)) => if status == 144 || status == 176 then Some((n, v)) else None
  }

  /** `button_state_xy` of the RGB pads; here `mode` is compared in lower
      case. Python's `%` and `//` floor, as Dafny's do for a positive divisor. */
  function RgbButtonXY(msg: Option<Triple>, mode: string): Option<(int, int, int)> {
    match msg
    case None => None
    case Some((status, n, v)) =>
      if status == 144 || status == 176 then
        Some((if Lower(mode) != "pro" then (n - 1) % 10 else n % 10, (99 - n) / 10, v))
      else None
  }

  /** For a mode written in lower case, `button_state_xy` inverts the pad
      addressing of `led_control_xy` in both classic and pro mode: the button
      at the pad the coordinates stand for reports those coordinates. */
  lemma RgbXYButtonRoundTrip(x: int, y: int, v: int, status: int, mode: string)
    requires 0 <= x <= 9 && 0 <= y <= 9 && (status == 144 || status == 176)
    requires Lower(mode) == mode
    ensures var led := XYAddress(x, y, mode != "pro").value;
      RgbButtonXY(Some((status, led, v)), mode) == Some((x, y, v))
  {
    var led := XYAddress(x, y, mode != "pro").value;
    if mode != "pro" {
      var x1 := (x + 1) % 10;
      assert led == 90 - 10 * y + x1;
      assert (led - 1) % 10 == x by {
        if x == 9 {
          assert led - 1 == 10 * (8 - y) + 9;
        } else {
          assert led - 1 == 10 * (9 - y) + x;
        }
      }
      assert (99 - led) / 10 == y by {
        assert 99 - led == 10 * y + (9 - x1);
      }
    } else {
      assert led % 10 == x by {
        assert led == 10 * (9 - y) + x;
      }
      assert (99 - led) / 10 == y by {
        assert 99 - led == 10 * y + (9 - x);
      }
    }
  }

  /** The writers compare the mode as written and the decoder in lower case,
      so for "Pro" the column sent and the column read back differ: (0, 0)
      lights pad 91, which reads back as (1, 0). */
  lemma MixedCaseModeDiffers()
    ensures XYAddress(0, 0, "Pro" != "pro") == Some(91)
    ensures RgbButtonXY(Some((144, 91, 127)), "Pro") == Some((1, 0, 127))
  {
    assert Lower("Pro") == "pro" by {
      assert LowerChar('P') == 'p';
    }
  }

  /** The clock period of `led_control_bmp` in milliseconds: the tempo clamped
      to 40..240 BPM, 24 clocks per beat. */
  function BmpDelay(bpm: int): int {
    2500 / Limit(bpm, 40, 240)
  }

  /** The delay lies in 10..62 milliseconds. */
  lemma BmpDelayRange(bpm: int)
    ensures 10 <= BmpDelay(bpm) <= 62
  {
    var b := Limit(bpm, 40, 240);
    var q := 2500 / b;
    assert 2500 == q * b + 2500 % b;
  }

  /** `k` MIDI beat clocks. */
  function ClockMsgs(k: nat): (r: seq<WireMsg>)
    ensures |r| == k
  {
    if k == 0 then [] else ClockMsgs(k - 1) + [Short(248, 0, 0)]
  }

  /** Every message of `led_control_bmp` is a beat clock. */
  lemma {:induction false} ClockMsgsAreClocks(k: nat)
    ensures forall m :: m in ClockMsgs(k) ==> m == Short(248, 0, 0)
  {
    if k > 0 {
      ClockMsgsAreClocks(k - 1);
    }
  }

  /** `led_set_layout`: the Pro accepts 0..0x0D, the Mini MK3 its six layouts. */
  function LegacySetLayoutMsgs(model: Model, mode: int): seq<WireMsg>
    requires model != Classic
  {
    if model == Pro then
      if mode < 0 || mode > 0x0D then [] else [Sysex([0, 32, 41, 2, 16, 34, mode])]
    else if mode !in [0x00, 0x04, 0x05, 0x06, 0x0D, 0x7F] then []
    else [Sysex([0, 32, 41, 2, 13, 0, mode])]
  }

  /** `led_set_mode`: 0 or 1. */
  function LegacySetModeMsgs(model: Model, mode: int): seq<WireMsg>
    requires model != Classic
  {
    if mode < 0 || mode > 1 then []
    else if model == Pro then [Sysex([0, 32, 41, 2, 16, 33, mode])]
    else [Sysex([0, 32, 41, 2, 13, 14, mode])]
  }

  /** The legacy layout and mode blocks are those of the current driver. The
      Mini MK3 accepts exactly its layout enumeration; the Pro accepts 0..0x0D,
      three values beyond its enumeration. Modes are 0 and 1 on both. */
  lemma LegacyLayoutModeAgree(model: Model, v: int)
    requires model != Classic
    ensures |LegacySetLayoutMsgs(model, v)| <= 1 && |LegacySetModeMsgs(model, v)| <= 1
    ensures model == MiniMk3 ==> (LegacySetLayoutMsgs(model, v) != [] <==> IsLayoutValue(model, v))
    ensures model == Pro ==> (LegacySetLayoutMsgs(model, v) != [] <==> 0 <= v <= 0x0D)
    ensures model == Pro && IsLayoutValue(model, v) ==> LegacySetLayoutMsgs(model, v) != []
    ensures LegacySetLayoutMsgs(model, v) != [] ==> LegacySetLayoutMsgs(model, v) == [LayoutMsg(model, v)]
    ensures LegacySetModeMsgs(model, v) != [] <==> 0 <= v <= 1
    ensures LegacySetModeMsgs(model, v) != [] ==> LegacySetModeMsgs(model, v) == [ModeMsg(model, v)]
  {
    assert [0, 32, 41, 2, 16, 34, v] == Header(Pro) + [34, v];
    assert [0, 32, 41, 2, 13, 0, v] == Header(MiniMk3) + [0, v];
    assert [0, 32, 41, 2, 16, 33, v] == Header(Pro) + [33, v];
    assert [0, 32, 41, 2, 13, 14, v] == Header(MiniMk3) + [14, v];
  }

  /** What `open` sends after the base open: nothing if that failed; the Pro
      (and the Mini MK3, through the Pro's `open`) enter Live mode (0) when the
      name is "pro" in any case; the Mini MK3 then enters programmer mode (1). */
  function LegacyOpenMsgs(model: Model, success: bool, name: string): seq<WireMsg> {
    if !success || model == Classic then []
    else
      (if Lower(name) == "pro" then LegacySetModeMsgs(model, 0) else [])
      + (if model == MiniMk3 then LegacySetModeMsgs(model, 1) else [])
  }

  /** A failed open sends nothing; with their default names the Pro sends
      Live mode and the Mini MK3 programmer mode, one block each. */
  lemma LegacyOpenDefaults(model: Model, name: string)
    ensures LegacyOpenMsgs(model, false, name) == []
    ensures LegacyOpenMsgs(Pro, true, "Pro") == [ModeMsg(Pro, 0)]
    ensures LegacyOpenMsgs(MiniMk3, true, "MiniMK3") == [ModeMsg(MiniMk3, 1)]
  {
    assert Lower("Pro") == "pro" by {
      assert LowerChar('P') == 'p';
    }
    assert Lower("MiniMK3") != "pro" by {
      assert |Lower("MiniMK3")| == 7;
    }
    assert [0, 32, 41, 2, 16, 33, 0] == Header(Pro) + [33, 0];
    assert [0, 32, 41, 2, 13, 14, 1] == Header(MiniMk3) + [14, 1];
  }

  // ---- characters and strings ----

  /** The messages that draw rendered pixels: one `led_control_raw` per
      pixel, in the text colour when lit and black otherwise. */
  function PaintPixels(model: Model, c: RGB, ps: seq<Pixel>): seq<WireMsg> {
    if ps == [] then []
    else
      var p := ps[|ps| - 1];
      PaintPixels(model, c, ps[..|ps| - 1]) + RawMsgs(model, p.n, if p.lit then c else RGB(0, 0, 0))
  }

  lemma PaintPixelsSnoc(model: Model, c: RGB, ps: seq<Pixel>, p: Pixel)
    ensures PaintPixels(model, c, ps + [p]) == PaintPixels(model, c, ps) + RawMsgs(model, p.n, if p.lit then c else RGB(0, 0, 0))
  {
    assert (ps + [p])[..|ps|] == ps;
  }

  lemma {:induction false} PaintPixelsAppend(model: Model, c: RGB, ps: seq<Pixel>, qs: seq<Pixel>)
    ensures PaintPixels(model, c, ps + qs) == PaintPixels(model, c, ps) + PaintPixels(model, c, qs)
  {
    if qs != [] {
      var front, last := qs[..|qs| - 1], qs[|qs| - 1];
      var m := RawMsgs(model, last.n, if last.lit then c else RGB(0, 0, 0));
      PaintPixelsAppend(model, c, ps, front);
      assert (ps + qs)[..|ps + qs| - 1] == ps + front;
      assert PaintPixels(model, c, ps + qs) == PaintPixels(model, c, ps + front) + m;
      AppendAssoc(PaintPixels(model, c, ps), PaintPixels(model, c, front), m);
    } else {
      assert ps + qs == ps;
    }
  }

  /** `led_control_char` in colour `c`: the two-colour pad sends nothing for a
      code above 255, the RGB pads clamp the code to 255. */
  function LegacyCharMsgs(model: Model, table: GlyphTable, d: Draw, c: RGB): seq<WireMsg> {
    if model == Classic && d.ch as int > 255 then []
    else PaintPixels(model, c, CharPixels(GridOf(model), table, d.ch, d.offset))
  }

  /** Pixels on the matrix each take exactly one message. */
  lemma {:induction false} PaintPixelsSize(model: Model, c: RGB, ps: seq<Pixel>)
    requires forall p :: p in ps ==> CellOf(GridOf(model), p.n).Some?
    ensures |PaintPixels(model, c, ps)| == |ps|
  {
    if ps != [] {
      var p := ps[|ps| - 1];
      assert p in ps;
      PaintPixelsSize(model, c, ps[..|ps| - 1]);
      if model == Classic {
        ClassicRawCases(p.n, (if p.lit then c else RGB(0, 0, 0)).red, (if p.lit then c else RGB(0, 0, 0)).green);
      } else {
        RgbRawCases(model, p.n, if p.lit then c else RGB(0, 0, 0));
      }
    }
  }

  /** A character sends one message per visible pixel, `8 * Width(offset)` in
      all, unless the two-colour pad rejects its code. */
  lemma LegacyCharMsgsSize(model: Model, table: GlyphTable, d: Draw, c: RGB)
    ensures |LegacyCharMsgs(model, table, d, c)| == if model == Classic && d.ch as int > 255 then 0 else 8 * Width(d.offset)
  {
    if !(model == Classic && d.ch as int > 255) {
      var ps := CharPixels(GridOf(model), table, d.ch, d.offset);
      forall p | p in ps ensures CellOf(GridOf(model), p.n).Some? {
        GlyphPixelsShow(GridOf(model), GlyphOf(table, d.ch), d.offset, 8);
      }
      PaintPixelsSize(model, c, ps);
    }
  }

  /** On matrix pixels the legacy two-colour painting is the current driver's. */
  lemma {:induction false} PaintPixelsClassicAgrees(c: RGB, ps: seq<Pixel>)
    requires forall p :: p in ps ==> CellOf(ClassicGrid, p.n).Some?
    ensures PaintPixels(Classic, RGB(c.red, c.green, 0), ps) == PixelMsgs(Classic, c, ps)
  {
    if ps != [] {
      var p := ps[|ps| - 1];
      assert p in ps;
      PaintPixelsClassicAgrees(c, ps[..|ps| - 1]);
      LedGetColorAgrees(c.red, c.green, c.blue);
      LedGetColorAgrees(0, 0, 0);
    }
  }

  /** The legacy two-colour `led_control_char` draws a character exactly as
      the current driver's `write_char` does. */
  lemma LegacyCharClassicAgrees(table: GlyphTable, d: Draw, c: RGB)
    requires d.ch as int <= 255
    ensures LegacyCharMsgs(Classic, table, d, RGB(c.red, c.green, 0)) == Launchpads.CharMsgs(Classic, table, d, c)
  {
    var ps := CharPixels(ClassicGrid, table, d.ch, d.offset);
    forall p | p in ps ensures CellOf(ClassicGrid, p.n).Some? {
      GlyphPixelsShow(ClassicGrid, GlyphOf(table, d.ch), d.offset, 8);
    }
    PaintPixelsClassicAgrees(c, ps);
  }

  /** The messages of a sequence of `led_control_char` calls, in order. */
  function LegacyDrawsMsgs(model: Model, table: GlyphTable, ds: seq<Draw>, c: RGB): seq<WireMsg> {
    Launchpads.FlatMap((d: Draw) => LegacyCharMsgs(model, table, d, c), ds)
  }

  lemma LegacyDrawsMsgsAppend(model: Model, table: GlyphTable, ds: seq<Draw>, es: seq<Draw>, c: RGB)
    ensures LegacyDrawsMsgs(model, table, ds + es, c) == LegacyDrawsMsgs(model, table, ds, c) + LegacyDrawsMsgs(model, table, es, c)
  {
    Launchpads.FlatMapAppend((d: Draw) => LegacyCharMsgs(model, table, d, c), ds, es);
  }

  lemma LegacyDrawsMsgsSingle(model: Model, table: GlyphTable, d: Draw, c: RGB)
    ensures LegacyDrawsMsgs(model, table, [d], c) == LegacyCharMsgs(model, table, d, c)
  {
    var f := (e: Draw) => LegacyCharMsgs(model, table, e, c);
    assert [d][..0] == [];
    assert Launchpads.FlatMap(f, [d]) == Launchpads.FlatMap(f, []) + f(d);
    assert [] + f(d) == f(d);
  }

  lemma LegacyDrawsMsgsSnoc(model: Model, table: GlyphTable, ds: seq<Draw>, d: Draw, c: RGB)
    ensures LegacyDrawsMsgs(model, table, ds + [d], c) == LegacyDrawsMsgs(model, table, ds, c) + LegacyCharMsgs(model, table, d, c)
  {
    LegacyDrawsMsgsAppend(model, table, ds, [d], c);
    LegacyDrawsMsgsSingle(model, table, d, c);
  }

  /** Before the right-scroll loop no step has been drawn. */
  lemma LegacyNoSteps(model: Model, table: GlyphTable, sent: seq<WireMsg>, t: string, hi: nat, c: RGB)
    requires |t| > 0
    ensures sent + LegacyDrawsMsgs(model, table, Descending(t, hi, hi), c) == sent
  {
    assert LegacyDrawsMsgs(model, table, Descending(t, hi, hi), c) == [];
    AppendNil(sent);
  }

  /** One more step of the right-scroll loop: step `n` is drawn after the
      steps from `hi` down to `n + 1`. */
  lemma LegacyDescendingStep(model: Model, table: GlyphTable, t: string, hi: nat, n: nat, c: RGB)
    requires |t| > 0 && 0 < n <= hi
    ensures LegacyDrawsMsgs(model, table, Descending(t, hi, n - 1), c) == LegacyDrawsMsgs(model, table, Descending(t, hi, n), c) + LegacyDrawsMsgs(model, table, StepDraws(t, n), c)
  {
    assert Descending(t, hi, n - 1) == Descending(t, hi, n) + StepDraws(t, n);
    LegacyDrawsMsgsAppend(model, table, Descending(t, hi, n), StepDraws(t, n), c);
  }

  /** `direction` of `led_control_string`: -1 scrolls left, 1 right, anything
      else (including no direction) writes in place. */
  function LegacyScroll(direction: Option<int>): (s: Scroll)
    ensures direction.Some? && ScrollOf(direction.value).Some? ==> s == ScrollOf(direction.value).value
    ensures direction.None? ==> s == NoScroll
    ensures direction != Some(-1) && direction != Some(1) ==> s == NoScroll
  {
    if direction == Some(-1) then ScrollLeft
    else if direction == Some(1) then ScrollRight
    else NoScroll
  }

  /** Over a string of codes up to 255, the legacy two-colour
      `led_control_string` sends what the current driver's `write_string`
      sends for the same schedule. */
  lemma {:induction false} LegacyDrawsClassicAgrees(table: GlyphTable, ds: seq<Draw>, c: RGB)
    requires forall d :: d in ds ==> d.ch as int <= 255
    ensures LegacyDrawsMsgs(Classic, table, ds, RGB(c.red, c.green, 0)) == Launchpads.DrawsMsgs(Classic, table, ds, c)
  {
    if ds != [] {
      var front, last := ds[..|ds| - 1], ds[|ds| - 1];
      assert ds == front + [last];
      assert last in ds;
      LegacyDrawsClassicAgrees(table, front, c);
      LegacyDrawsMsgsSnoc(Classic, table, front, last, RGB(c.red, c.green, 0));
      Launchpads.DrawsMsgsSnoc(Classic, table, front, last, c);
      LegacyCharClassicAgrees(table, last, c);
    }
  }
}
