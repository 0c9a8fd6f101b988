/** The wire encodings of the three device models behind the `Launchpad`
    class: which MIDI message lights one LED, all LEDs, selects a layout or a
    mode, and the port names each model opens. The two-colour pad takes
    channel messages; the RGB pads (Pro, Mini MK3) take system-exclusive
    blocks behind the Novation header. */
module Protocol {
  import opened Wrappers
  import opened Enums
  import opened Errors
  import opened Midi
  import opened Glyphs

  datatype Model = Classic | Pro | MiniMk3

  /** `INPUT_NAME` and `OUTPUT_NAME` (the same for every model): the port-name
      fragment and which of the matching ports to take. */
  function PortName(model: Model): (string, nat) {
    match model
    case Classic => ("Launchpad", 0)
    case Pro => ("Pro", 0)
    case MiniMk3 => ("Launchpad Mini MK3", 1)
  }

  /** The grid `write_char` draws on: the Mini MK3 inherits the Pro's. */
  function GridOf(model: Model): Grid {
    if model == Classic then ClassicGrid else ProGrid
  }

  /** The system-exclusive header: manufacturer 00 20 29, then the device. */
  function Header(model: Model): seq<int>
    requires model != Classic
  {
    if model == Pro then [0, 32, 41, 2, 16] else [0, 32, 41, 2, 13]
  }

  // ---- two-colour pad ----

  /** `_get_color`: red and green brightness clamped to 0..3, red in the low
      nibble, green in the high one. */
  function ClassicColor(c: RGB): (b: int)
    ensures b == Limit(c.red, 0, 3) + 16 * Limit(c.green, 0, 3)
    ensures 0 <= b <= 0x33
  {
    var red := Limit(c.red, 0, 3);
    var green := Limit(c.green, 0, 3);
    ((red as bv8) | ((green as bv8) << 4)) as int
  }

  /** The two brightness levels can be read back from the colour byte. */
  lemma ClassicColorRoundTrip(red: int, green: int, blue: int)
    requires 0 <= red <= 3 && 0 <= green <= 3
    ensures ClassicColor(RGB(red, green, blue)) % 16 == red
    ensures ClassicColor(RGB(red, green, blue)) / 16 == green
  {
  }

  // ---- RGB pads ----

  /** Pad number of column `x`, row `y` (row 0 at the top) on the RGB pads. */
  function RgbAddress(x: int, y: int): int {
    90 - 10 * y + x
  }

  /** Every in-range `(x, y)` has its own pad number in 0..99, whose digits give
      back the row and the column. */
  lemma RgbAddressRoundTrip(x: int, y: int)
    requires 0 <= x <= 9 && 0 <= y <= 9
    ensures 0 <= RgbAddress(x, y) <= 99
    ensures RgbAddress(x, y) % 10 == x && (99 - RgbAddress(x, y)) / 10 == y
  {
  }

  lemma RgbAddressInjective(x1: int, y1: int, x2: int, y2: int)
    requires 0 <= x1 <= 9 && 0 <= y1 <= 9 && 0 <= x2 <= 9 && 0 <= y2 <= 9
    requires RgbAddress(x1, y1) == RgbAddress(x2, y2)
    ensures x1 == x2 && y1 == y2
  {
    RgbAddressRoundTrip(x1, y1);
    RgbAddressRoundTrip(x2, y2);
  }

  /** The set-LED block of an RGB pad, channels already scaled to 0..63. */
  function RgbLedMsg(model: Model, led: int, c: RGB): WireMsg
    requires model != Classic
  {
    if model == Pro then Sysex(Header(model) + [11, led, c.red, c.green, c.blue])
    else Sysex(Header(model) + [3, 3, led, c.red, c.green, c.blue])
  }

  /** The block is the model's header followed by the set-LED command: command
      11 on the Pro, command 3 with LED type 3 (RGB) on the Mini MK3, then the
      LED number and the three channels. */
  lemma RgbLedMsgLayout(model: Model, led: int, c: RGB)
    requires model != Classic
    ensures var m := RgbLedMsg(model, led, c);
      m.Sysex? && |m.payload| >= 10 && m.payload[..5] == Header(model)
      && (model == Pro ==> m.payload[5..] == [11, led, c.red, c.green, c.blue])
      && (model == MiniMk3 ==> m.payload[5..] == [3, 3, led, c.red, c.green, c.blue])
  {
    var m := RgbLedMsg(model, led, c);
    if model == Pro {
      assert m.payload == Header(model) + [11, led, c.red, c.green, c.blue];
    } else {
      assert m.payload == Header(model) + [3, 3, led, c.red, c.green, c.blue];
    }
  }

  // ---- led_on ----

  /** Whether a selection names an LED of the model: a number in range, or else
      both coordinates in range. */
  predicate Selects(model: Model, n: Option<int>, x: Option<int>, y: Option<int>) {
    if n.Some? then
      (if model == Classic then 200 <= n.value <= 207 || 0 <= n.value <= 120 else 0 <= n.value <= 99)
    else
      x.Some? && y.Some? &&
      (if model == Classic then 0 <= x.value <= 8 && 0 <= y.value <= 8
       else 0 <= x.value <= 9 && 0 <= y.value <= 9)
  }

  /** The LED a valid selection names: the number when given, else the
      number the coordinates stand for. */
  function Selected(model: Model, n: Option<int>, x: Option<int>, y: Option<int>): int
    requires n.Some? || (x.Some? && y.Some?)
  {
    if n.Some? then n.value else XYToNumber(model, x.value, y.value)
  }

  /** `led_on` of the two-colour pad: a control change 104..112 for the top row,
      a note-on with the raw number for the matrix and the right column, both
      carrying the packed colour byte. */
  function ClassicLedOn(color: RGB, n: Option<int>, x: Option<int>, y: Option<int>)
    : (r: Result<WireMsg, LaunchpadError>)
    ensures r.Err? <==> !Selects(Classic, n, x, y)
    ensures r.Err? ==> r.error == NewLEDSelectionError(n, x, y)
    ensures r.Ok? ==> r.value.Short? && r.value.d2 == ClassicColor(color)
    ensures r.Ok? ==>
      var led := Selected(Classic, n, x, y);
      if led >= 200 || (n.None? && y.value == 0)
      then r.value.status == 176 && 104 <= r.value.d1 <= 112
        && (n.Some? ==> r.value.d1 == led - 96) && (n.None? ==> r.value.d1 == x.value + 104)
      else r.value.status == 144 && r.value.d1 == led && 0 <= led <= 120
  {
    var c := ClassicColor(color);
    if n.Some? then
      if 199 < n.value < 208 then Ok(Short(176, n.value - 200 + 104, c))
      else if n.value < 0 || n.value > 120 then Err(NewLEDSelectionError(n, x, y))
      else Ok(Short(144, n.value, c))
    else if x.Some? && y.Some? then
      if x.value < 0 || x.value > 8 || y.value < 0 || y.value > 8 then Err(NewLEDSelectionError(n, x, y))
      else if y.value == 0 then Ok(Short(176, x.value + 104, c))
      else Ok(Short(144, ((y.value - 1) * 16) + x.value, c))
    else Err(NewLEDSelectionError(n, x, y))
  }

  /** `led_on` of the RGB pads: the set-LED block for the selected pad number,
      every channel scaled from 0..255 into 0..63. */
  function RgbLedOn(model: Model, color: RGB, n: Option<int>, x: Option<int>, y: Option<int>)
    : (r: Result<WireMsg, LaunchpadError>)
    requires model != Classic
    ensures r.Err? <==> !Selects(model, n, x, y)
    ensures r.Err? ==> r.error == NewLEDSelectionError(n, x, y)
    ensures r.Ok? ==> 0 <= Selected(model, n, x, y) <= 99
    ensures r.Ok? ==> r.value == RgbLedMsg(model, Selected(model, n, x, y), color.Scale(0, 63))
  {
    var c := color.Scale(0, 63);
    if n.Some? then
      if n.value < 0 || n.value > 99 then Err(NewLEDSelectionError(n, x, y))
      else Ok(RgbLedMsg(model, n.value, c))
    else if x.Some? && y.Some? then
      if x.value < 0 || x.value > 9 || y.value < 0 || y.value > 9 then Err(NewLEDSelectionError(n, x, y))
      else
        RgbAddressRoundTrip(x.value, y.value);
        Ok(RgbLedMsg(model, RgbAddress(x.value, y.value), c))
    else Err(NewLEDSelectionError(n, x, y))
  }

  /** `led_on(color, n, x, y)` of each model: the message that lights the
      selected LED, or the selection error. A number wins over coordinates
      when both are given. */
  function LedOnMsg(model: Model, color: RGB, n: Option<int>, x: Option<int>, y: Option<int>)
    : (r: Result<WireMsg, LaunchpadError>)
    ensures r.Err? <==> !Selects(model, n, x, y)
    ensures r.Err? ==> r.error == NewLEDSelectionError(n, x, y)
  {
    if model == Classic then ClassicLedOn(color, n, x, y) else RgbLedOn(model, color, n, x, y)
  }

  /** On the RGB pads every channel sent lies in 0..63 whenever the requested
      channels lie in 0..255. */
  lemma RgbLedOnChannelsInRange(model: Model, color: RGB, n: Option<int>, x: Option<int>, y: Option<int>)
    requires model != Classic && LedOnMsg(model, color, n, x, y).Ok?
    requires 0 <= color.red <= 255 && 0 <= color.green <= 255 && 0 <= color.blue <= 255
    ensures var p := LedOnMsg(model, color, n, x, y).value.payload;
      forall k :: |p| - 3 <= k < |p| ==> 0 <= p[k] <= 63
  {
  }

  /** The LED number that coordinates stand for: the Classic raw layout (top row
      200..207, then 16 numbers per row) or the RGB pad number. */
  function XYToNumber(model: Model, x: int, y: int): int {
    if model == Classic then (if y == 0 then 200 + x else (y - 1) * 16 + x)
    else RgbAddress(x, y)
  }

  /** Selecting by coordinates is selecting by the number they stand for; the
      one exception is the two-colour pad's top-right corner (8, 0), which has no
      raw number and is reachable only by coordinates. */
  lemma XYSelectsNumber(model: Model, color: RGB, x: int, y: int)
    requires Selects(model, None, Some(x), Some(y))
    requires !(model == Classic && x == 8 && y == 0)
    ensures Selects(model, Some(XYToNumber(model, x, y)), None, None)
    ensures LedOnMsg(model, color, None, Some(x), Some(y)).value
         == LedOnMsg(model, color, Some(XYToNumber(model, x, y)), None, None).value
  {
  }

  /** The message `led_on(color, n=led)` sends for a valid LED number. */
  function LedMsg(model: Model, color: RGB, led: int): WireMsg {
    if model == Classic then
      if led >= 200 then Short(176, led - 96, ClassicColor(color)) else Short(144, led, ClassicColor(color))
    else RgbLedMsg(model, led, color.Scale(0, 63))
  }

  /** For a valid number `led_on` succeeds with exactly `LedMsg`. */
  lemma LedOnNumber(model: Model, color: RGB, led: int)
    requires Selects(model, Some(led), None, None)
    ensures LedOnMsg(model, color, Some(led), None, None) == Ok(LedMsg(model, color, led))
  {
  }

  /** The messages that draw a rendered character: one `led_on` per pixel, in
      the text colour when lit and black otherwise. */
  function PixelMsgs(model: Model, color: RGB, ps: seq<Pixel>): (r: seq<WireMsg>)
    ensures |r| == |ps|
  {
    if ps == [] then []
    else
      var p := ps[|ps| - 1];
      PixelMsgs(model, color, ps[..|ps| - 1]) + [LedMsg(model, if p.lit then color else RGB(), p.n)]
  }

  /** The pixels `write_char` draws are always valid LEDs of the model, so no
      `led_on` of a character fails. */
  lemma CharPixelsAllSelect(model: Model, ps: seq<Pixel>)
    requires forall p :: p in ps ==> CellOf(GridOf(model), p.n).Some?
    ensures forall p :: p in ps ==> Selects(model, Some(p.n), None, None)
  {
  }

  // ---- led_all_on ----

  /** Note number of the `k`-th `led_on` the Mini MK3's `led_all_on` sends:
      `x` outer, `y` inner, both over 0..8. */
  function Mk3AllOnNote(k: int): int {
    (k / 9 + 1) + (k % 9 + 1) * 10
  }

  /** The first `k` note-ons of the Mini MK3's `led_all_on`. */
  function Mk3AllOn(value: int, k: nat): (r: seq<WireMsg>)
    ensures |r| == k
    ensures forall i :: 0 <= i < k ==> r[i] == Short(144, Mk3AllOnNote(i), value)
  {
    if k == 0 then [] else Mk3AllOn(value, k - 1) + [Short(144, Mk3AllOnNote(k - 1), value)]
  }

  /** The note-on for column `x`, row `y` is the next one the loops send. */
  lemma Mk3AllOnNext(value: int, x: int, y: int)
    requires 0 <= x < 9 && 0 <= y < 9
    ensures Mk3AllOn(value, 9 * x + y + 1) == Mk3AllOn(value, 9 * x + y) + [Short(144, (x + 1) + ((y + 1) * 10), value)]
  {
    assert (9 * x + y) / 9 == x && (9 * x + y) % 9 == y;
  }

  /** The notes the inner loop sends for column `x`, rows `0 .. y - 1`. */
  function Mk3Column(value: int, x: int, y: nat): (r: seq<WireMsg>)
    ensures |r| == y
  {
    if y == 0 then [] else Mk3Column(value, x, y - 1) + [Short(144, (x + 1) + y * 10, value)]
  }

  /** The flat sequence is the columns one after the other. */
  lemma {:induction false} Mk3AllOnColumn(value: int, x: int, y: nat)
    requires 0 <= x < 9 && y <= 9
    ensures Mk3AllOn(value, 9 * x + y) == Mk3AllOn(value, 9 * x) + Mk3Column(value, x, y)
  {
    if y > 0 {
      Mk3AllOnColumn(value, x, y - 1);
      Mk3AllOnNext(value, x, y - 1);
      AppendAssoc(Mk3AllOn(value, 9 * x), Mk3Column(value, x, y - 1), [Short(144, (x + 1) + y * 10, value)]);
    } else {
      assert Mk3AllOn(value, 9 * x) + [] == Mk3AllOn(value, 9 * x);
    }
  }

  /** The 81 notes cover the 9x9 block 11..99 (both digits 1..9), each once. */
  lemma Mk3AllOnCoversBlock(i: int, j: int, a: int, b: int)
    requires 0 <= i < 81 && 0 <= j < 81
    requires 1 <= a <= 9 && 1 <= b <= 9
    ensures Mk3AllOnNote(i) / 10 == i % 9 + 1 && Mk3AllOnNote(i) % 10 == i / 9 + 1
    ensures Mk3AllOnNote(i) == Mk3AllOnNote(j) ==> i == j
    ensures Mk3AllOnNote(9 * (b - 1) + (a - 1)) == 10 * a + b
  {
  }

  /** `led_all_on(color)`. */
  function AllOnMsgs(model: Model, color: Color): (r: seq<WireMsg>)
    ensures model == Classic ==> r == [Short(176, 0, if color == Black then 0 else 127)]
    ensures model == Pro ==> r == [Sysex(Header(Pro) + [14, color.Value()])]
    ensures model == MiniMk3 ==> |r| == 81
    ensures model == MiniMk3 ==> forall m :: m in r ==> m.Short? && m.status == 144 && m.d2 == color.Value()
  {
    match model
    case Classic => [Short(176, 0, if color == Black then 0 else 127)]
    case Pro => [Sysex(Header(Pro) + [14, color.Value()])]
    case MiniMk3 => Mk3AllOn(color.Value(), 81)
  }

  // ---- layouts and modes ----

  datatype ProLayout = Session | DrumRack | ChromaticNote | User | Audio | Fader
                     | RecordArm | TrackSelect | Mute | Solo | Volume
  {
    function Value(): (v: int)
      ensures 0 <= v <= 0x0A
    {
      match this
      case Session => 0x00 case DrumRack => 0x01 case ChromaticNote => 0x02
      case User => 0x03 case Audio => 0x04 case Fader => 0x05
      case RecordArm => 0x06 case TrackSelect => 0x07 case Mute => 0x08
      case Solo => 0x09 case Volume => 0x0A
    }
  }

  datatype Mk3Layout = Mk3Session | Drums | Keys | Mk3User | Daw | Programmer
  {
    function Value(): (v: int)
      ensures v in {0x00, 0x04, 0x05, 0x06, 0x0D, 0x7F}
    {
      match this
      case Mk3Session => 0x00 case Drums => 0x04 case Keys => 0x05
      case Mk3User => 0x06 case Daw => 0x0D case Programmer => 0x7F
    }
  }

  /** Layout values of the two models' `Layout` enumerations. */
  predicate IsLayoutValue(model: Model, v: int) {
    match model
    case Classic => false
    case Pro => 0 <= v <= 0x0A
    case MiniMk3 => v in {0x00, 0x04, 0x05, 0x06, 0x0D, 0x7F}
  }

  /** Every layout value is the value of exactly one enumeration member. */
  lemma LayoutValuesAreEnumerations(v: int)
    ensures IsLayoutValue(Pro, v) <==> exists l: ProLayout :: l.Value() == v
    ensures IsLayoutValue(MiniMk3, v) <==> exists l: Mk3Layout :: l.Value() == v
    ensures forall l1: ProLayout, l2: ProLayout :: l1.Value() == l2.Value() ==> l1 == l2
    ensures forall l1: Mk3Layout, l2: Mk3Layout :: l1.Value() == l2.Value() ==> l1 == l2
  {
    if IsLayoutValue(Pro, v) {
      var l := [Session, DrumRack, ChromaticNote, User, Audio, Fader, RecordArm, TrackSelect, Mute, Solo, Volume][v];
      assert l.Value() == v;
    }
    if IsLayoutValue(MiniMk3, v) {
      var l := if v == 0 then Mk3Session else if v == 4 then Drums else if v == 5 then Keys
               else if v == 6 then Mk3User else if v == 0x0D then Daw else Programmer;
      assert l.Value() == v;
    }
  }

  /** `set_layout(layout)`. */
  function LayoutMsg(model: Model, v: int): (m: WireMsg)
    requires model != Classic
    ensures m.Sysex? && |m.payload| == 7 && m.payload[..5] == Header(model) && m.payload[6] == v
  {
    Sysex(Header(model) + [if model == Pro then 34 else 0, v])
  }

  /** `set_mode(mode)`: 0 is Ableton Live mode on both; 1 is standalone on the
      Pro and programmer mode on the Mini MK3. */
  function ModeMsg(model: Model, v: int): (m: WireMsg)
    requires model != Classic
    ensures m.Sysex? && |m.payload| == 7 && m.payload[..5] == Header(model) && m.payload[6] == v
  {
    Sysex(Header(model) + [if model == Pro then 33 else 14, v])
  }

  /** Layout, mode and all-LEDs blocks differ in their command byte, so a
      device never mistakes one for another. */
  lemma CommandsDistinct(model: Model, v: int, w: int, c: Color)
    requires model != Classic
    ensures LayoutMsg(model, v) != ModeMsg(model, w)
    ensures model == Pro ==> LayoutMsg(model, v) != AllOnMsgs(model, c)[0] && ModeMsg(model, w) != AllOnMsgs(model, c)[0]
  {
    assert LayoutMsg(model, v).payload[5] != ModeMsg(model, w).payload[5];
    if model == Pro {
      assert AllOnMsgs(model, c)[0].payload[5] == 14;
    }
  }

  // ---- led_on as written ----

  /** Attribute lookup on an `RGB` value, which has exactly the attributes
      `red`, `green` and `blue`. */
  function RgbAttribute(c: RGB, name: string): Option<int> {
    if name == "red" then Some(c.red)
    else if name == "green" then Some(c.green)
    else if name == "blue" then Some(c.blue)
    else None
  }

  /** `led_on` as the model files write it: the two-colour pad reads `color.r`
      and `color.g` before looking at the selection, the RGB pads read
      `color.r`, `color.g`, `color.b` of the scaled colour once the selection is
      valid. The outcome is the message, or the name of the exception raised. */
  function LedOnAsWritten(model: Model, color: RGB, n: Option<int>, x: Option<int>, y: Option<int>)
    : (r: Result<WireMsg, string>)
    ensures r.Err? && Selects(model, n, x, y) ==> r.error == "AttributeError"
  {
    if model == Classic then
      match RgbAttribute(color, "r")
      case None => Err("AttributeError")
      case Some(_) => Err("unreachable")
    else if !Selects(model, n, x, y) then Err("LEDSelectionError")
    else
      match RgbAttribute(color.Scale(0, 63), "r")
      case None => Err("AttributeError")
      case Some(_) => Err("unreachable")
  }

  /** As written, no `led_on` of any model ever sends a message: every valid
      selection ends in an attribute error, while `LedOnMsg` sends one for it. */
  lemma LedOnAsWrittenNeverSends(model: Model, color: RGB, n: Option<int>, x: Option<int>, y: Option<int>)
    ensures LedOnAsWritten(model, color, n, x, y).Err?
    ensures Selects(model, n, x, y) ==>
      LedOnAsWritten(model, color, n, x, y).error == "AttributeError" && LedOnMsg(model, color, n, x, y).Ok?
  {
  }
}
