/** The device driver: one `Launchpad` object per physical pad, tagged with its
    model (two-colour Launchpad, Launchpad Pro, Launchpad Mini MK3). It owns an
    input and an output device, opens them by port name, lights LEDs and
    renders and scrolls text by sending MIDI messages. */
module Launchpads {
  import opened Wrappers
  import opened Enums
  import opened Errors
  import opened Midi
  import opened Glyphs
  import opened Scrolling
  import opened Protocol

  /** The messages of one `write_char` call. */
  function CharMsgs(model: Model, table: GlyphTable, d: Draw, color: RGB): seq<WireMsg> {
    PixelMsgs(model, color, CharPixels(GridOf(model), table, d.ch, d.offset))
  }

  /** One message per visible pixel: none of the `led_on` calls fails. */
  lemma CharMsgsSize(model: Model, table: GlyphTable, d: Draw, color: RGB)
    ensures |CharMsgs(model, table, d, color)| == 8 * Width(d.offset)
  {
    var ps := CharPixels(GridOf(model), table, d.ch, d.offset);
    forall p | p in ps ensures CellOf(GridOf(model), p.n).Some? {
      GlyphPixelsShow(GridOf(model), GlyphOf(table, d.ch), d.offset, 8);
    }
    CharPixelsAllSelect(model, ps);
  }

  /** `f` applied to each element of `xs`, the results concatenated in order. */
  function FlatMap<T, U>(f: T -> seq<U>, xs: seq<T>): seq<U> {
    if xs == [] then [] else FlatMap(f, xs[..|xs| - 1]) + f(xs[|xs| - 1])
  }

  lemma {:induction false} FlatMapAppend<T, U>(f: T -> seq<U>, xs: seq<T>, ys: seq<T>)
    ensures FlatMap(f, xs + ys) == FlatMap(f, xs) + FlatMap(f, ys)
  {
    if ys != [] {
      FlatMapAppend(f, xs, ys[..|ys| - 1]);
      AppendDropLast(xs, ys);
    } else {
      AppendNil(xs);
    }
  }

  /** The messages of a sequence of `write_char` calls, in order. */
  function DrawsMsgs(model: Model, table: GlyphTable, ds: seq<Draw>, color: RGB): seq<WireMsg> {
    FlatMap((d: Draw) => CharMsgs(model, table, d, color), ds)
  }

  lemma DrawsMsgsAppend(model: Model, table: GlyphTable, ds: seq<Draw>, es: seq<Draw>, color: RGB)
    ensures DrawsMsgs(model, table, ds + es, color) == DrawsMsgs(model, table, ds, color) + DrawsMsgs(model, table, es, color)
  {
    FlatMapAppend((d: Draw) => CharMsgs(model, table, d, color), ds, es);
  }

  /** One more step of the right-scroll loop appends that step's messages. */
  lemma DescendingMsgsStep(model: Model, table: GlyphTable, t: string, hi: nat, n: nat, color: RGB)
    requires |t| > 0 && 0 < n <= hi
    ensures DrawsMsgs(model, table, Descending(t, hi, n - 1), color)
      == DrawsMsgs(model, table, Descending(t, hi, n), color) + DrawsMsgs(model, table, StepDraws(t, n), color)
  {
    assert Descending(t, hi, n - 1) == Descending(t, hi, n) + StepDraws(t, n);
    DrawsMsgsAppend(model, table, Descending(t, hi, n), StepDraws(t, n), color);
  }

  lemma DrawsMsgsSingle(model: Model, table: GlyphTable, d: Draw, color: RGB)
    ensures DrawsMsgs(model, table, [d], color) == CharMsgs(model, table, d, color)
  {
    var f := (e: Draw) => CharMsgs(model, table, e, color);
    assert [d][..0] == [];
    assert FlatMap(f, [d]) == FlatMap(f, []) + f(d);
    assert [] + f(d) == f(d);
  }

  lemma DrawsMsgsSnoc(model: Model, table: GlyphTable, ds: seq<Draw>, d: Draw, color: RGB)
    ensures DrawsMsgs(model, table, ds + [d], color) == DrawsMsgs(model, table, ds, color) + CharMsgs(model, table, d, color)
  {
    var f := (e: Draw) => CharMsgs(model, table, e, color);
    FlatMapAppend(f, ds, [d]);
    assert [d][..0] == [];
    assert FlatMap(f, [d]) == f(d);
  }

  lemma PixelMsgsSnoc(model: Model, color: RGB, ps: seq<Pixel>, p: Pixel)
    requires Selects(model, Some(p.n), None, None)
    ensures PixelMsgs(model, color, ps + [p])
         == PixelMsgs(model, color, ps) + [LedOnMsg(model, if p.lit then color else RGB(), Some(p.n), None, None).value]
  {
    LedOnNumber(model, if p.lit then color else RGB(), p.n);
    assert (ps + [p])[..|ps|] == ps;
  }

  /** One more glyph row appends the messages of that row's pixels. */
  lemma GlyphMsgsStep(model: Model, color: RGB, g: Glyph, offset: int, index: nat)
    requires index < 8
    ensures PixelMsgs(model, color, GlyphPixels(GridOf(model), g, offset, index + 1))
      == PixelMsgs(model, color, GlyphPixels(GridOf(model), g, offset, index))
         + PixelMsgs(model, color, RowPixels(g[index], RowBase(GridOf(model), index), offset, 8))
  {
    PixelMsgsAppend(model, color, GlyphPixels(GridOf(model), g, offset, index), RowPixels(g[index], RowBase(GridOf(model), index), offset, 8));
  }

  /** Column `j` of a glyph row: a visible column is a valid LED lit with
      `LedMsg` and appends that message; a hidden column adds nothing. */
  lemma RowMsgsStep(model: Model, color: RGB, row: nat, code: Byte, offset: int, j: nat)
    requires row < 8 && j < 8
    ensures var base := RowBase(GridOf(model), row);
      var n := base + j + offset;
      var c := if Bit(code, j) then color else RGB();
      base <= n < base + 8 ==>
        Selects(model, Some(n), None, None)
        && LedOnMsg(model, c, Some(n), None, None) == Ok(LedMsg(model, c, n))
        && PixelMsgs(model, color, RowPixels(code, base, offset, j + 1))
           == PixelMsgs(model, color, RowPixels(code, base, offset, j)) + [LedMsg(model, c, n)]
    ensures var base := RowBase(GridOf(model), row);
      !(base <= base + j + offset < base + 8) ==> RowPixels(code, base, offset, j + 1) == RowPixels(code, base, offset, j)
  {
    var base := RowBase(GridOf(model), row);
    var n := base + j + offset;
    if base <= n < base + 8 {
      var p := Pixel(n, Bit(code, j));
      MatrixSelects(model, row, j + offset);
      LedOnNumber(model, if p.lit then color else RGB(), n);
      assert RowPixels(code, base, offset, j + 1) == RowPixels(code, base, offset, j) + [p];
      PixelMsgsSnoc(model, color, RowPixels(code, base, offset, j), p);
    }
  }

  /** Every LED of the 8x8 matrix is a valid `led_on` selection. */
  lemma MatrixSelects(model: Model, row: nat, column: int)
    requires row < 8 && 0 <= column < 8
    ensures Selects(model, Some(RowBase(GridOf(model), row) + column), None, None)
  {
  }

  lemma {:induction false} PixelMsgsAppend(model: Model, color: RGB, ps: seq<Pixel>, qs: seq<Pixel>)
    ensures PixelMsgs(model, color, ps + qs) == PixelMsgs(model, color, ps) + PixelMsgs(model, color, qs)
  {
    if qs != [] {
      var front, last := qs[..|qs| - 1], qs[|qs| - 1];
      var m := [LedMsg(model, if last.lit then color else RGB(), last.n)];
      PixelMsgsAppend(model, color, ps, front);
      AppendDropLast(ps, qs);
      assert PixelMsgs(model, color, ps + qs) == PixelMsgs(model, color, ps + front) + m;
      AppendAssoc(PixelMsgs(model, color, ps), PixelMsgs(model, color, front), m);
    } else {
      AppendNil(ps);
    }
  }

  /** What `open` sends once both devices are open: the Mini MK3 switches to
      programmer mode and the programmer layout. */
  function OpeningMsgs(model: Model): seq<WireMsg> {
    if model == MiniMk3 then [ModeMsg(MiniMk3, 1), LayoutMsg(MiniMk3, Programmer.Value())] else []
  }

  /** What `close` sends before releasing the output: the Mini MK3 goes back to
      the keys layout so that it does not stay in programmer mode. */
  function ClosingMsgs(model: Model): seq<WireMsg> {
    if model == MiniMk3 then [LayoutMsg(MiniMk3, Keys.Value())] else []
  }

  /** `p` is the `no`-th port (0-based) whose name matches. */
  predicate IsNthMatch(ports: seq<string>, name: string, no: int, p: nat) {
    p < |ports| && Matches(ports[p], name) && CountMatches(ports[..p], name) == no
  }

  class Launchpad {
    const model: Model
    const table: GlyphTable
    var input: InputDevice?
    var output: OutputDevice?

    ghost predicate Valid()
      reads this, input
    {
      input != null ==> input.Valid()
    }

    /** A launchpad with no device open; the Python constructor then calls
        `open`, which is the separate method `Open` here. */
    constructor(model: Model, table: GlyphTable)
      ensures Valid()
      ensures this.model == model && this.table == table && input == null && output == null
    {
      this.model := model;
      this.table := table;
      input := null;
      output := null;
    }

    predicate CanSend()
      reads this, output
    {
      output != null && output.IsOpen()
    }

    method Send(m: WireMsg)
      requires CanSend()
      modifies output
      ensures CanSend() && output.port == old(output.port) && output.sent == old(output.sent) + [m]
    {
      match m
      case Short(status, d1, d2) => output.Send(status, d1, d2);
      case Sysex(payload) => output.SendSysex(payload);
    }

    /** `close`: an open input and an open output are closed and dropped; a
        device that is absent or already closed is left as it is. The Mini MK3
        first sends the keys layout when its output is open. */
    method Close()
      requires Valid()
      modifies this, input, output
      ensures Valid()
      ensures old(input != null && input.IsOpen()) ==> input == null && !old(input).IsOpen()
      ensures !old(input != null && input.IsOpen()) ==> input == old(input)
      ensures old(output != null && output.IsOpen()) ==>
        output == null && !old(output).IsOpen() && old(output).sent == old(output.sent) + ClosingMsgs(model)
      ensures !old(output != null && output.IsOpen()) ==> output == old(output)
      ensures input == null || !input.IsOpen()
      ensures output == null || !output.IsOpen()
    {
      if model == MiniMk3 && output != null && output.IsOpen() {
        SetLayout(Keys.Value());
      }
      if input != null && input.IsOpen() {
        input.Close();
        input := null;
      }
      if output != null && output.IsOpen() {
        output.Close();
        output := null;
      }
    }

    /** `open`: close what is open (the devices open before the call end up
        closed, the Mini MK3's old output after the keys layout), then open
        the model's input port and output port by name (raising the
        direction's not-found error when the port is missing), and let the
        Mini MK3 enter programmer mode. */
    method Open(inPorts: seq<string>, outPorts: seq<string>) returns (err: Option<LaunchpadError>)
      requires Valid()
      modifies this, input, output
      ensures Valid()
      ensures var (name, no) := PortName(model);
        && (CountMatches(inPorts, name) <= no ==> err == Some(NotFoundError(Input, name)))
        && (no < CountMatches(inPorts, name) && CountMatches(outPorts, name) <= no ==>
              err == Some(NotFoundError(Output, name)))
        && (no < CountMatches(inPorts, name) && no < CountMatches(outPorts, name) ==> err == None)
        && (no < CountMatches(inPorts, name) ==>
              input != null && fresh(input) && input.port.Some? && IsNthMatch(inPorts, name, no, input.port.value)
              && input.messageQueue == [] && input.callbackQueue == [] && input.callbacks == [])
        && (err == None ==>
              output != null && fresh(output) && output.port.Some? && IsNthMatch(outPorts, name, no, output.port.value)
              && output.sent == OpeningMsgs(model))
      ensures old(input != null && input.IsOpen()) ==> !old(input).IsOpen()
      ensures old(output != null && output.IsOpen()) ==>
        !old(output).IsOpen() && old(output).sent == old(output.sent) + ClosingMsgs(model)
      ensures err != None ==> output == null || !output.IsOpen()
      ensures err != None && input != null && !fresh(input) ==> !input.IsOpen()
    {
      Close();
      err := OpenDevices(inPorts, outPorts);
    }

    /** The part of `open` after `close`: the two ports by name, then the
        Mini MK3's opening messages. */
    method OpenDevices(inPorts: seq<string>, outPorts: seq<string>) returns (err: Option<LaunchpadError>)
      requires Valid() && (input == null || !input.IsOpen()) && (output == null || !output.IsOpen())
      modifies this
      ensures Valid()
      ensures var (name, no) := PortName(model);
        && (CountMatches(inPorts, name) <= no ==> err == Some(NotFoundError(Input, name)))
        && (no < CountMatches(inPorts, name) && CountMatches(outPorts, name) <= no ==>
              err == Some(NotFoundError(Output, name)))
        && (no < CountMatches(inPorts, name) && no < CountMatches(outPorts, name) ==> err == None)
        && (no < CountMatches(inPorts, name) ==>
              input != null && fresh(input) && input.port.Some? && IsNthMatch(inPorts, name, no, input.port.value)
              && input.messageQueue == [] && input.callbackQueue == [] && input.callbacks == [])
        && (err == None ==>
              output != null && fresh(output) && output.port.Some? && IsNthMatch(outPorts, name, no, output.port.value)
              && output.sent == OpeningMsgs(model))
      ensures err != None ==> output == null || !output.IsOpen()
      ensures err != None && input != null && !fresh(input) ==> !input.IsOpen()
    {
      var (name, no) := PortName(model);
      var r := OpenDevice(Some((name, no)), Input, inPorts);
      if r.Err? {
        return Some(r.error);
      }
      input := new InputDevice(r.value.value);
      var w := OpenDevice(Some((name, no)), Output, outPorts);
      if w.Err? {
        return Some(w.error);
      }
      output := new OutputDevice(w.value.value);
      SendOpening();
      return None;
    }

    /** The Mini MK3 part of `open`: programmer mode, then the programmer layout. */
    method SendOpening()
      requires CanSend()
      modifies output
      ensures CanSend() && output.port == old(output.port) && output.sent == old(output.sent) + OpeningMsgs(model)
    {
      if model == MiniMk3 {
        SetMode(1);
        SetLayout(Programmer.Value());
      }
    }

    /** `flush_buttons`: drop every message waiting on the input. */
    method FlushButtons()
      requires input != null
      modifies input
      ensures input.messageQueue == [] && input.callbackQueue == []
      ensures input.port == old(input.port) && input.callbacks == old(input.callbacks)
    {
      input.Flush();
    }

    /** `set_layout` of the RGB pads. */
    method SetLayout(v: int)
      requires model != Classic && IsLayoutValue(model, v) && CanSend()
      modifies output
      ensures CanSend() && output.port == old(output.port) && output.sent == old(output.sent) + [LayoutMsg(model, v)]
    {
      Send(LayoutMsg(model, v));
    }

    /** `set_mode` of the RGB pads. */
    method SetMode(v: int)
      requires model != Classic && (v == 0 || v == 1) && CanSend()
      modifies output
      ensures CanSend() && output.port == old(output.port) && output.sent == old(output.sent) + [ModeMsg(model, v)]
    {
      Send(ModeMsg(model, v));
    }

    /** `led_all_on(color)`. */
    method LedAllOn(color: Color)
      requires CanSend()
      modifies output
      ensures CanSend() && output.port == old(output.port) && output.sent == old(output.sent) + AllOnMsgs(model, color)
    {
      match model
      case Classic =>
        if color == Black {
          output.Send(176, 0, 0);
        } else {
          output.Send(176, 0, 127);
        }
      case Pro =>
        output.SendSysex(Header(Pro) + [14, color.Value()]);
      case MiniMk3 =>
        var x := 0;
        while x < 9
          invariant 0 <= x <= 9
          invariant CanSend() && output.port == old(output.port) && output.sent == old(output.sent) + Mk3AllOn(color.Value(), 9 * x)
        {
          LightColumn(color.Value(), x);
          Mk3AllOnColumn(color.Value(), x, 9);
          AppendAssoc(old(output.sent), Mk3AllOn(color.Value(), 9 * x), Mk3Column(color.Value(), x, 9));
          x := x + 1;
        }
    }

    /** One pass of the Mini MK3's inner `led_all_on` loop: the notes of column `x`. */
    method LightColumn(value: int, x: int)
      requires CanSend()
      modifies output
      ensures CanSend() && output.port == old(output.port)
      ensures output.sent == old(output.sent) + Mk3Column(value, x, 9)
    {
      var y := 0;
      while y < 9
        invariant 0 <= y <= 9
        invariant CanSend() && output.port == old(output.port)
        invariant output.sent == old(output.sent) + Mk3Column(value, x, y)
      {
        AppendAssoc(old(output.sent), Mk3Column(value, x, y), [Short(144, (x + 1) + ((y + 1) * 10), value)]);
        output.Send(144, (x + 1) + ((y + 1) * 10), value);
        y := y + 1;
      }
    }

    /** `reset`: every LED off. */
    method Reset()
      requires CanSend()
      modifies output
      ensures CanSend() && output.port == old(output.port) && output.sent == old(output.sent) + AllOnMsgs(model, Black)
    {
      LedAllOn(Black);
    }

    /** `led_on(color, n, x, y)`: send the message for the selected LED, or
        report the selection error and send nothing. */
    method LedOn(color: RGB, n: Option<int>, x: Option<int>, y: Option<int>) returns (err: Option<LaunchpadError>)
      requires Selects(model, n, x, y) ==> CanSend()
      modifies output
      ensures Selects(model, n, x, y) ==>
        err == None && CanSend() && output.port == old(output.port) && output.sent == old(output.sent) + [LedOnMsg(model, color, n, x, y).value]
      ensures !Selects(model, n, x, y) ==>
        err == Some(NewLEDSelectionError(n, x, y)) && (output != null ==> output.port == old(output.port) && output.sent == old(output.sent))
    {
      var r := LedOnMsg(model, color, n, x, y);
      if r.Ok? {
        Send(r.value);
        err := None;
      } else {
        err := Some(r.error);
      }
    }

    /** `write_char(ch, color, offset)`: the character's glyph, shifted right by
        `offset` columns, drawn row by row (top to bottom) with one `led_on`
        per visible pixel. */
    method WriteChar(ch: char, color: RGB, offset: int)
      requires CanSend()
      modifies output
      ensures CanSend() && output.port == old(output.port)
      ensures output.sent == old(output.sent) + CharMsgs(model, table, Draw(ch, offset), color)
    {
      var codes := GlyphOf(table, ch);
      var index := 0;
      var i := if model == Classic then 0 else 81;
      while index < 8
        invariant 0 <= index <= 8 && i == RowBase(GridOf(model), index)
        invariant CanSend() && output.port == old(output.port)
        invariant output.sent == old(output.sent) + PixelMsgs(model, color, GlyphPixels(GridOf(model), codes, offset, index))
      {
        ghost var done := PixelMsgs(model, color, GlyphPixels(GridOf(model), codes, offset, index));
        DrawRow(index, codes[index], offset, color);
        GlyphMsgsStep(model, color, codes, offset, index);
        AppendAssoc(old(output.sent), done, PixelMsgs(model, color, RowPixels(codes[index], RowBase(GridOf(model), index), offset, 8)));
        index := index + 1;
        i := if model == Classic then i + 16 else i - 10;
      }
      assert index == 8;
    }

    /** The inner loop of `write_char`: pixel row `row` of the glyph, whose
        byte is `code`, drawn column by column. */
    method DrawRow(row: nat, code: Byte, offset: int, color: RGB)
      requires row < 8 && CanSend()
      modifies output
      ensures CanSend() && output.port == old(output.port)
      ensures output.sent == old(output.sent) + PixelMsgs(model, color, RowPixels(code, RowBase(GridOf(model), row), offset, 8))
    {
      var i := RowBase(GridOf(model), row);
      var black := RGB();
      var j := 0;
      while j < 8
        invariant 0 <= j <= 8
        invariant CanSend() && output.port == old(output.port)
        invariant output.sent == old(output.sent) + PixelMsgs(model, color, RowPixels(code, i, offset, j))
      {
        ghost var done := PixelMsgs(model, color, RowPixels(code, i, offset, j));
        RowMsgsStep(model, color, row, code, offset, j);
        var n := i + j + offset;
        if i <= n < i + 8 {
          AppendAssoc(old(output.sent), done, [LedMsg(model, if Bit(code, j) then color else black, n)]);
          var err;
          if Bit(code, j) {
            err := LedOn(color, Some(n), None, None);
          } else {
            err := LedOn(black, Some(n), None, None);
          }
        }
        j := j + 1;
      }
    }

    /** `write_string(s, color, scroll)`: the calls of `Schedule(s, scroll)`,
        in order. */
    method WriteString(s: string, color: RGB, scroll: Scroll)
      requires CanSend()
      modifies output
      ensures CanSend() && output.port == old(output.port) && output.sent == old(output.sent) + DrawsMsgs(model, table, Schedule(s, scroll), color)
    {
      match scroll
      case ScrollLeft =>
        var t := LeftText(s);
        ScrollLeftSteps(t, (|t| + 1) * 8, color);
      case ScrollRight =>
        var t := RightText(s);
        ScrollRightSteps(t, (|t| + 1) * 8 - 7, color);
      case NoScroll =>
        WriteStill(s, color);
    }

    /** The left-scroll loop: steps `0, 1, ..., hi - 1`. */
    method ScrollLeftSteps(t: string, hi: nat, color: RGB)
      requires |t| > 0 && CanSend()
      modifies output
      ensures CanSend() && output.port == old(output.port) && output.sent == old(output.sent) + DrawsMsgs(model, table, Ascending(t, hi), color)
    {
      var n: nat := 0;
      while n < hi
        invariant n <= hi
        invariant CanSend() && output.port == old(output.port) && output.sent == old(output.sent) + DrawsMsgs(model, table, Ascending(t, n), color)
      {
        ScrollStep(t, n, color);
        DrawsMsgsAppend(model, table, Ascending(t, n), StepDraws(t, n), color);
        AppendAssoc(old(output.sent), DrawsMsgs(model, table, Ascending(t, n), color), DrawsMsgs(model, table, StepDraws(t, n), color));
        n := n + 1;
      }
    }

    /** The right-scroll loop: steps `hi, hi - 1, ..., 1`. */
    method ScrollRightSteps(t: string, hi: nat, color: RGB)
      requires |t| > 0 && CanSend()
      modifies output
      ensures CanSend() && output.port == old(output.port) && output.sent == old(output.sent) + DrawsMsgs(model, table, Descending(t, hi, 0), color)
    {
      assert DrawsMsgs(model, table, Descending(t, hi, hi), color) == [];
      AppendNil(output.sent);
      var n: nat := hi;
      while n > 0
        invariant n <= hi
        invariant CanSend() && output.port == old(output.port) && output.sent == old(output.sent) + DrawsMsgs(model, table, Descending(t, hi, n), color)
      {
        RightStep(old(output.sent), t, hi, n, color);
        n := n - 1;
      }
      assert n == 0;
    }

    /** One pass of the right-scroll loop: step `n` extends the messages of
        the steps above it. */
    method RightStep(ghost start: seq<WireMsg>, t: string, hi: nat, n: nat, color: RGB)
      requires |t| > 0 && 0 < n <= hi && CanSend()
      requires output.sent == start + DrawsMsgs(model, table, Descending(t, hi, n), color)
      modifies output
      ensures CanSend() && output.port == old(output.port)
      ensures output.sent == start + DrawsMsgs(model, table, Descending(t, hi, n - 1), color)
    {
      ScrollStep(t, n, color);
      DescendingMsgsStep(model, table, t, hi, n, color);
      AppendAssoc(start, DrawsMsgs(model, table, Descending(t, hi, n), color), DrawsMsgs(model, table, StepDraws(t, n), color));
    }

    /** No scroll: each character written four times at offset 0. */
    method WriteStill(s: string, color: RGB)
      requires CanSend()
      modifies output
      ensures CanSend() && output.port == old(output.port) && output.sent == old(output.sent) + DrawsMsgs(model, table, StillSchedule(s), color)
    {
      var i := 0;
      while i < |s|
        invariant 0 <= i <= |s|
        invariant CanSend() && output.port == old(output.port) && output.sent == old(output.sent) + DrawsMsgs(model, table, StillSchedule(s[..i]), color)
      {
        RepeatChar(s[i], color);
        assert s[..i + 1][..i] == s[..i];
        DrawsMsgsAppend(model, table, StillSchedule(s[..i]), Repeat(Draw(s[i], 0), 4), color);
        AppendAssoc(old(output.sent), DrawsMsgs(model, table, StillSchedule(s[..i]), color), DrawsMsgs(model, table, Repeat(Draw(s[i], 0), 4), color));
        i := i + 1;
      }
      assert s[..|s|] == s;
    }

    /** The inner loop of the no-scroll case: one character written four
        times in place. */
    method RepeatChar(ch: char, color: RGB)
      requires CanSend()
      modifies output
      ensures CanSend() && output.port == old(output.port)
      ensures output.sent == old(output.sent) + DrawsMsgs(model, table, Repeat(Draw(ch, 0), 4), color)
    {
      var k := 0;
      while k < 4
        invariant 0 <= k <= 4
        invariant CanSend() && output.port == old(output.port)
        invariant output.sent == old(output.sent) + DrawsMsgs(model, table, Repeat(Draw(ch, 0), k), color)
      {
        WriteChar(ch, color, 0);
        DrawsMsgsSnoc(model, table, Repeat(Draw(ch, 0), k), Draw(ch, 0), color);
        AppendAssoc(old(output.sent), DrawsMsgs(model, table, Repeat(Draw(ch, 0), k), color), CharMsgs(model, table, Draw(ch, 0), color));
        k := k + 1;
      }
    }

    /** One step `n` of either scrolling loop over the padded text `t`. */
    method ScrollStep(t: string, n: nat, color: RGB)
      requires |t| > 0 && CanSend()
      modifies output
      ensures CanSend() && output.port == old(output.port) && output.sent == old(output.sent) + DrawsMsgs(model, table, StepDraws(t, n), color)
    {
      ghost var even := if n <= |t| * 8 then [EvenDraw(t, n)] else [];
      ghost var odd := if n > 7 then [OddDraw(t, n)] else [];
      if n <= |t| * 8 {
        var d := EvenDraw(t, n);
        WriteChar(d.ch, color, d.offset);
        DrawsMsgsSingle(model, table, d, color);
      } else {
        assert old(output.sent) + DrawsMsgs(model, table, even, color) == old(output.sent);
      }
      ghost var mid := output.sent;
      if n > 7 {
        var d := OddDraw(t, n);
        WriteChar(d.ch, color, d.offset);
        DrawsMsgsSingle(model, table, d, color);
      } else {
        assert mid + DrawsMsgs(model, table, odd, color) == mid;
      }
      DrawsMsgsAppend(model, table, even, odd, color);
      AppendAssoc(old(output.sent), DrawsMsgs(model, table, even, color), DrawsMsgs(model, table, odd, color));
    }
  }

  /** A whole `write_string` sends one message per visible pixel of every
      call: `8 * Width(offset)` messages for a call at that offset. */
  lemma {:induction false} DrawsMsgsSize(model: Model, table: GlyphTable, ds: seq<Draw>, color: RGB, k: nat)
    requires forall d :: d in ds ==> Width(d.offset) == k
    ensures |DrawsMsgs(model, table, ds, color)| == 8 * k * |ds|
  {
    if ds != [] {
      var prefix, last := ds[..|ds| - 1], ds[|ds| - 1];
      assert ds == prefix + [last];
      assert last in ds;
      DrawsMsgsSnoc(model, table, prefix, last, color);
      DrawsMsgsSize(model, table, prefix, color, k);
      CharMsgsSize(model, table, last, color);
      ProductStep(8 * k, |prefix|);
    }
  }

  lemma ProductStep(a: int, m: int)
    ensures a * (m + 1) == a * m + a
  {
  }


  /** Writing a string without scrolling sends 256 messages per character:
      four renderings of 64 pixels. */
  lemma StillStringSize(model: Model, table: GlyphTable, s: string, color: RGB)
    ensures |DrawsMsgs(model, table, Schedule(s, NoScroll), color)| == 256 * |s|
  {
    var ds := StillSchedule(s);
    forall d | d in ds ensures Width(d.offset) == 8 {
      var i :| 0 <= i < |ds| && ds[i] == d;
    }
    DrawsMsgsSize(model, table, ds, color, 8);
  }
}
