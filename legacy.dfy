/** The older per-model driver classes: the two-colour `Launchpad`, the
    `LaunchpadPro` and the `LaunchpadMiniMk3` (which inherits from the Pro),
    as one class tagged with its model. Every call appends the messages it
    sends through the shared MIDI interface to `log`, in order. */
module LegacyDrivers {
  import opened Wrappers
  import opened Enums
  import opened Midi
  import opened Glyphs
  import opened Scrolling
  import opened Protocol
  import opened LegacyProtocol

  class LegacyLaunchpad {
    const model: Model
    const table: GlyphTable
    var log: seq<WireMsg>

    constructor(model: Model, table: GlyphTable)
      ensures this.model == model && this.table == table && log == []
    {
      this.model := model;
      this.table := table;
      log := [];
    }

    /** `midi.write_raw(stat, dat1, dat2)`. */
    method WriteRaw(stat: int, dat1: int, dat2: int)
      modifies this
      ensures log == old(log) + [Short(stat, dat1, dat2)]
    {
      log := log + [Short(stat, dat1, dat2)];
    }

    /** `midi.write_raw_sysex(payload)`. */
    method WriteRawSysex(payload: seq<int>)
      modifies this
      ensures log == old(log) + [Sysex(payload)]
    {
      log := log + [Sysex(payload)];
    }

    /** `open` after the base open, whose outcome `success` is: the RGB pads
        switch modes as `LegacyOpenMsgs` says. Returns the outcome. */
    method Open(success: bool, name: string) returns (result: bool)
      modifies this
      ensures result == success
      ensures log == old(log) + LegacyOpenMsgs(model, success, name)
    {
      result := success;
      if result && model != Classic {
        if Lower(name) == "pro" {
          LedSetMode(0);
        }
        if model == MiniMk3 {
          LedSetMode(1);
        }
      }
    }

    /** `reset`: every LED off. */
    method Reset()
      modifies this
      ensures log == old(log) + LegacyResetMsgs(model)
    {
      if model == Classic {
        WriteRaw(176, 0, 0);
      } else {
        LedAllOn(Some(0));
      }
    }

    /** `led_set_layout(mode)` of the RGB pads. */
    method LedSetLayout(mode: int)
      requires model != Classic
      modifies this
      ensures log == old(log) + LegacySetLayoutMsgs(model, mode)
    {
      if model == Pro {
        if mode < 0 || mode > 0x0D {
          return;
        }
        WriteRawSysex([0, 32, 41, 2, 16, 34, mode]);
      } else {
        if mode !in [0x00, 0x04, 0x05, 0x06, 0x0D, 0x7F] {
          return;
        }
        WriteRawSysex([0, 32, 41, 2, 13, 0, mode]);
      }
    }

    /** `led_set_mode(mode)` of the RGB pads. */
    method LedSetMode(mode: int)
      requires model != Classic
      modifies this
      ensures log == old(log) + LegacySetModeMsgs(model, mode)
    {
      if mode < 0 || mode > 1 {
        return;
      }
      if model == Pro {
        WriteRawSysex([0, 32, 41, 2, 16, 33, mode]);
      } else {
        WriteRawSysex([0, 32, 41, 2, 13, 14, mode]);
      }
    }

    /** `led_set_button_layout_session`. */
    method LedSetButtonLayoutSession()
      requires model != Classic
      modifies this
      ensures log == old(log) + [LayoutMsg(model, 0)]
    {
      LedSetLayout(0);
      LegacyLayoutModeAgree(model, 0);
    }

    /** `led_control_bmp(bpm)`: 28 beat clocks; the pause of `BmpDelay(bpm)`
        milliseconds after each is not modelled. */
    method LedControlBmp(bpm: int)
      requires model != Classic
      modifies this
      ensures log == old(log) + ClockMsgs(28)
    {
      var i := 0;
      while i < 28
        invariant 0 <= i <= 28
        invariant log == old(log) + ClockMsgs(i)
      {
        AppendAssoc(old(log), ClockMsgs(i), [Short(248, 0, 0)]);
        WriteRaw(248, 0, 0);
        i := i + 1;
      }
    }

    /** `led_control_automap(number, red, green)` of the two-colour pad. */
    method LedControlAutomap(number: int, red: int, green: int)
      requires model == Classic
      modifies this
      ensures log == old(log) + AutomapMsgs(number, red, green)
    {
      if number < 0 || number > 7 {
        return;
      }
      var led := LedGetColor(red, green);
      WriteRaw(176, 104 + number, led);
    }

    /** `led_control_raw(number, red, green[, blue])`; the two-colour pad has
        no blue channel and ignores `blue`. */
    method LedControlRaw(number: int, red: int, green: int, blue: Option<int>)
      modifies this
      ensures log == old(log) + RawMsgs(model, number, Paint(model, red, green, blue))
    {
      if model == Classic {
        if number > 199 {
          if number < 208 {
            LedControlAutomap(number - 200, red, green);
          }
        } else {
          if number < 0 || number > 120 {
            return;
          }
          var led := LedGetColor(red, green);
          WriteRaw(144, number, led);
        }
      } else {
        if number < 0 || number > 99 {
          return;
        }
        var c := Clamp63(Compat(red, green, blue));
        if model == Pro {
          WriteRawSysex([0, 32, 41, 2, 16, 11, number, c.red, c.green, c.blue]);
        } else {
          WriteRawSysex([0, 32, 41, 2, 13, 3, 3, number, Shl1(c.red), Shl1(c.green), Shl1(c.blue)]);
        }
      }
    }

    /** `led_control_xy(x, y, red, green)` of the two-colour pad. */
    method ClassicControlXY(x: int, y: int, red: int, green: int)
      requires model == Classic
      modifies this
      ensures log == old(log) + ClassicXYMsgs(x, y, red, green)
    {
      if x < 0 || x > 8 || y < 0 || y > 8 {
        return;
      }
      if y == 0 {
        LedControlAutomap(x, red, green);
      } else {
        LedControlRaw(ClassicXYNumber(x, y), red, green, None);
      }
    }

    /** `led_control_xy(x, y, red, green, blue, mode)` of the RGB pads. */
    method LedControlXY(x: int, y: int, red: int, green: int, blue: Option<int>, mode: string)
      requires model != Classic
      modifies this
      ensures log == old(log) + RgbXYMsgs(model, x, y, red, green, blue, mode)
    {
      var led := XYAddress(x, y, mode != "pro");
      if led.None? {
        return;
      }
      LedControlRaw(led.value, red, green, blue);
    }

    /** `led_control_raw_rapid(all_leds)`: the LED values two at a time. */
    method LedControlRawRapid(leds: seq<int>)
      requires model == Classic
      modifies this
      ensures log == old(log) + RapidMsgs(leds, (|leds| + 1) / 2)
    {
      var le := |leds|;
      var i := 0;
      while i < le
        invariant 0 <= i <= le + 1 && i % 2 == 0
        invariant log == old(log) + RapidMsgs(leds, i / 2)
      {
        AppendAssoc(old(log), RapidMsgs(leds, i / 2), [RapidPair(leds, i / 2)]);
        WriteRaw(146, leds[i], if i + 1 < le then leds[i + 1] else 0);
        i := i + 2;
      }
    }

    /** `led_control_raw_rapid_home`. */
    method LedControlRawRapidHome()
      requires model == Classic
      modifies this
      ensures log == old(log) + [Short(176, 1, 0)]
    {
      WriteRaw(176, 1, 0);
    }

    /** `led_control_raw_by_code(number, colorcode)`. */
    method LedControlRawByCode(number: int, code: Option<int>)
      requires model != Classic
      modifies this
      ensures log == old(log) + ByCodeMsgs(number, code)
    {
      if number < 0 || number > 99 {
        return;
      }
      var v := if code.None? then ProColors["white"] else code.value;
      WriteRaw(144, number, v);
    }

    /** `led_control_pulse_by_code(number, colorcode)`. */
    method LedControlPulseByCode(number: int, code: Option<int>)
      requires model != Classic
      modifies this
      ensures log == old(log) + PulseMsgs(model, number, code)
    {
      if number < 0 || number > 99 {
        return;
      }
      var v := if code.None? then ProColors["white"] else code.value;
      if model == Pro {
        WriteRawSysex([0, 32, 41, 2, 16, 40, number, v]);
      } else {
        WriteRaw(146, number, Limit(v, 0, 127));
      }
    }

    /** `led_control_flash_by_code(number, colorcode)`. */
    method LedControlFlashByCode(number: int, code: Option<int>)
      requires model != Classic
      modifies this
      ensures log == old(log) + FlashMsgs(model, number, code)
    {
      if number < 0 || number > 99 {
        return;
      }
      var v := if code.None? then ProColors["white"] else code.value;
      if model == Pro {
        WriteRawSysex([0, 32, 41, 2, 16, 35, number, v]);
      } else {
        WriteRaw(145, number, Limit(v, 0, 127));
      }
    }

    /** `led_control_xy_by_code(x, y, colorcode, mode)`. */
    method LedControlXYByCode(x: int, y: int, code: Option<int>, mode: string)
      requires model != Classic
      modifies this
      ensures log == old(log) + XYByCodeMsgs(x, y, code, mode)
    {
      var led := XYAddress(x, y, mode != "pro");
      if led.None? {
        return;
      }
      LedControlRawByCode(led.value, code);
    }

    /** `led_control_pulse_xy_by_code(x, y, colorcode, mode)`. */
    method LedControlPulseXYByCode(x: int, y: int, code: Option<int>, mode: string)
      requires model != Classic
      modifies this
      ensures log == old(log) + PulseXYMsgs(model, x, y, code, mode)
    {
      var led := XYAddress(x, y, mode != "pro");
      if led.None? {
        return;
      }
      LedControlPulseByCode(led.value, code);
    }

    /** `led_control_flash_xy_by_code(x, y, colorcode, mode)`. */
    method LedControlFlashXYByCode(x: int, y: int, code: Option<int>, mode: string)
      requires model != Classic
      modifies this
      ensures log == old(log) + FlashXYMsgs(model, x, y, code, mode)
    {
      var led := XYAddress(x, y, mode != "pro");
      if led.None? {
        return;
      }
      LedControlFlashByCode(led.value, code);
    }

    /** `led_control_xy_by_rgb(x, y, colors, mode)`. */
    method LedControlXYByRgb(x: int, y: int, colors: seq<int>, mode: string)
      requires model != Classic
      modifies this
      ensures log == old(log) + XYByRgbMsgs(model, x, y, colors, mode)
    {
      if |colors| < 3 {
        return;
      }
      var led := XYAddress(x, y, Lower(mode) != "pro");
      if led.None? {
        return;
      }
      LedControlRaw(led.value, colors[0], colors[1], Some(colors[2]));
    }

    /** `led_all_on(code)`. */
    method LedAllOn(code: Option<int>)
      modifies this
      ensures log == old(log) + LegacyAllOnMsgs(model, code)
    {
      match model
      case Classic =>
        if code == Some(0) {
          WriteRaw(176, 0, 0);
        } else {
          WriteRaw(176, 0, 127);
        }
      case Pro =>
        WriteRawSysex([0, 32, 41, 2, 16, 14, AllOnCode(code)]);
      case MiniMk3 =>
        var v := AllOnCode(code);
        var x := 0;
        while x < 9
          invariant 0 <= x <= 9
          invariant log == old(log) + Mk3AllOn(v, 9 * x)
        {
          LightColumn(v, x);
          Mk3AllOnColumn(v, x, 9);
          AppendAssoc(old(log), Mk3AllOn(v, 9 * x), Mk3Column(v, x, 9));
          x := x + 1;
        }
    }

    /** The Mini MK3's inner `led_all_on` loop: the notes of column `x`. */
    method LightColumn(value: int, x: int)
      modifies this
      ensures log == old(log) + Mk3Column(value, x, 9)
    {
      var y := 0;
      while y < 9
        invariant 0 <= y <= 9
        invariant log == old(log) + Mk3Column(value, x, y)
      {
        AppendAssoc(old(log), Mk3Column(value, x, y), [Short(144, (x + 1) + ((y + 1) * 10), value)]);
        WriteRaw(144, (x + 1) + ((y + 1) * 10), value);
        y := y + 1;
      }
    }

    /** `led_control_char(char, red, green[, blue], offset)`. */
    method LedControlChar(ch: char, red: int, green: int, blue: Option<int>, offset: int)
      modifies this
      ensures log == old(log) + LegacyCharMsgs(model, table, Draw(ch, offset), Paint(model, red, green, blue))
    {
      DrawChar(ch, offset, Paint(model, red, green, blue));
    }

    /** The body of `led_control_char` once the colour is fixed: the glyph
        drawn row by row, top to bottom. */
    method DrawChar(ch: char, offset: int, c: RGB)
      modifies this
      ensures log == old(log) + LegacyCharMsgs(model, table, Draw(ch, offset), c)
    {
      if model == Classic && ch as int > 255 {
        return;
      }
      var grid := GridOf(model);
      var codes := GlyphOf(table, ch);
      var index := 0;
      var i := if model == Classic then 0 else 81;
      while index < 8
        invariant 0 <= index <= 8 && i == RowBase(grid, index)
        invariant log == old(log) + PaintPixels(model, c, GlyphPixels(grid, codes, offset, index))
      {
        PaintRow(index, codes[index], offset, c);
        PaintPixelsAppend(model, c, GlyphPixels(grid, codes, offset, index), RowPixels(codes[index], i, offset, 8));
        AppendAssoc(old(log), PaintPixels(model, c, GlyphPixels(grid, codes, offset, index)), PaintPixels(model, c, RowPixels(codes[index], i, offset, 8)));
        index := index + 1;
        i := if model == Classic then i + 16 else i - 10;
      }
    }

    /** The inner loop of `led_control_char`: pixel row `row`, whose byte is
        `code`, drawn column by column. */
    method PaintRow(row: nat, code: Byte, offset: int, c: RGB)
      requires row < 8
      modifies this
      ensures log == old(log) + PaintPixels(model, c, RowPixels(code, RowBase(GridOf(model), row), offset, 8))
    {
      var i := RowBase(GridOf(model), row);
      var black := RGB(0, 0, 0);
      var j := 0;
      while j < 8
        invariant 0 <= j <= 8
        invariant log == old(log) + PaintPixels(model, c, RowPixels(code, i, offset, j))
      {
        var n := i + j + offset;
        if i <= n < i + 8 {
          var p := Pixel(n, Bit(code, j));
          var paint := if p.lit then c else black;
          assert RowPixels(code, i, offset, j + 1) == RowPixels(code, i, offset, j) + [p];
          PaintPixelsSnoc(model, c, RowPixels(code, i, offset, j), p);
          PaintExplicit(model, n, paint);
          AppendAssoc(old(log), PaintPixels(model, c, RowPixels(code, i, offset, j)), RawMsgs(model, n, paint));
          LedControlRaw(n, paint.red, paint.green, Some(paint.blue));
        } else {
          assert RowPixels(code, i, offset, j + 1) == RowPixels(code, i, offset, j);
        }
        j := j + 1;
      }
    }

    /** `led_control_string(string, red, green[, blue], direction)`: the calls
        of `Schedule(s, LegacyScroll(direction))`, in order, in the colour of
        the call. */
    method LedControlString(s: string, red: int, green: int, blue: Option<int>, direction: Option<int>)
      modifies this
      ensures log == old(log) + LegacyDrawsMsgs(model, table, Schedule(s, LegacyScroll(direction)), Paint(model, red, green, blue))
    {
      var c := Paint(model, red, green, blue);
      match LegacyScroll(direction)
      case ScrollLeft =>
        var t := LeftText(s);
        ScrollLeftSteps(t, (|t| + 1) * 8, c);
      case ScrollRight =>
        var t := RightText(s);
        ScrollRightSteps(t, (|t| + 1) * 8 - 7, c);
      case NoScroll =>
        WriteStill(s, c);
    }

    /** The left-scroll loop: steps `0, 1, ..., hi - 1`. */
    method ScrollLeftSteps(t: string, hi: nat, c: RGB)
      requires |t| > 0
      modifies this
      ensures log == old(log) + LegacyDrawsMsgs(model, table, Ascending(t, hi), c)
    {
      var n: nat := 0;
      while n < hi
        invariant n <= hi
        invariant log == old(log) + LegacyDrawsMsgs(model, table, Ascending(t, n), c)
      {
        ScrollStep(t, n, c);
        LegacyDrawsMsgsAppend(model, table, Ascending(t, n), StepDraws(t, n), c);
        AppendAssoc(old(log), LegacyDrawsMsgs(model, table, Ascending(t, n), c), LegacyDrawsMsgs(model, table, StepDraws(t, n), c));
        n := n + 1;
      }
    }

    /** The right-scroll loop: steps `hi, hi - 1, ..., 1`. */
    method ScrollRightSteps(t: string, hi: nat, c: RGB)
      requires |t| > 0
      modifies this
      ensures log == old(log) + LegacyDrawsMsgs(model, table, Descending(t, hi, 0), c)
    {
      ghost var start := log;
      LegacyNoSteps(model, table, start, t, hi, c);
      var n: nat := hi;
      while n > 0
        invariant n <= hi
        invariant log == start + LegacyDrawsMsgs(model, table, Descending(t, hi, n), c)
      {
        RightStep(start, t, hi, n, c);
        n := n - 1;
      }
      assert n == 0;
    }

    /** One pass of the right-scroll loop: step `n` extends the messages of
        the steps above it. */
    method RightStep(ghost start: seq<WireMsg>, t: string, hi: nat, n: nat, c: RGB)
      requires |t| > 0 && 0 < n <= hi
      requires log == start + LegacyDrawsMsgs(model, table, Descending(t, hi, n), c)
      modifies this
      ensures log == start + LegacyDrawsMsgs(model, table, Descending(t, hi, n - 1), c)
    {
      ScrollStep(t, n, c);
      LegacyDescendingStep(model, table, t, hi, n, c);
      AppendAssoc(start, LegacyDrawsMsgs(model, table, Descending(t, hi, n), c), LegacyDrawsMsgs(model, table, StepDraws(t, n), c));
    }

    /** No scroll: each character drawn four times at offset 0. */
    method WriteStill(s: string, c: RGB)
      modifies this
      ensures log == old(log) + LegacyDrawsMsgs(model, table, StillSchedule(s), c)
    {
      var i := 0;
      while i < |s|
        invariant 0 <= i <= |s|
        invariant log == old(log) + LegacyDrawsMsgs(model, table, StillSchedule(s[..i]), c)
      {
        RepeatChar(s[i], c);
        assert s[..i + 1][..i] == s[..i];
        LegacyDrawsMsgsAppend(model, table, StillSchedule(s[..i]), Repeat(Draw(s[i], 0), 4), c);
        AppendAssoc(old(log), LegacyDrawsMsgs(model, table, StillSchedule(s[..i]), c), LegacyDrawsMsgs(model, table, Repeat(Draw(s[i], 0), 4), c));
        i := i + 1;
      }
      assert s[..|s|] == s;
    }

    /** The inner loop of the no-scroll case. */
    method RepeatChar(ch: char, c: RGB)
      modifies this
      ensures log == old(log) + LegacyDrawsMsgs(model, table, Repeat(Draw(ch, 0), 4), c)
    {
      var k := 0;
      while k < 4
        invariant 0 <= k <= 4
        invariant log == old(log) + LegacyDrawsMsgs(model, table, Repeat(Draw(ch, 0), k), c)
      {
        DrawChar(ch, 0, c);
        LegacyDrawsMsgsSnoc(model, table, Repeat(Draw(ch, 0), k), Draw(ch, 0), c);
        AppendAssoc(old(log), LegacyDrawsMsgs(model, table, Repeat(Draw(ch, 0), k), c), LegacyCharMsgs(model, table, Draw(ch, 0), c));
        k := k + 1;
      }
    }

    /** One step `n` of either scrolling loop over the padded text `t`. */
    method ScrollStep(t: string, n: nat, c: RGB)
      requires |t| > 0
      modifies this
      ensures log == old(log) + LegacyDrawsMsgs(model, table, StepDraws(t, n), c)
    {
      ghost var even := if n <= |t| * 8 then [EvenDraw(t, n)] else [];
      ghost var odd := if n > 7 then [OddDraw(t, n)] else [];
      if n <= |t| * 8 {
        var d := EvenDraw(t, n);
        DrawChar(d.ch, d.offset, c);
        LegacyDrawsMsgsSingle(model, table, d, c);
      } else {
        assert old(log) + LegacyDrawsMsgs(model, table, even, c) == old(log);
      }
      ghost var mid := log;
      if n > 7 {
        var d := OddDraw(t, n);
        DrawChar(d.ch, d.offset, c);
        LegacyDrawsMsgsSingle(model, table, d, c);
      } else {
        assert mid + LegacyDrawsMsgs(model, table, odd, c) == mid;
      }
      LegacyDrawsMsgsAppend(model, table, even, odd, c);
      AppendAssoc(old(log), LegacyDrawsMsgs(model, table, even, c), LegacyDrawsMsgs(model, table, odd, c));
    }
  }
}
