/** Button layouts: a configuration maps button ids to actions and colours; a
    note-on from the pad runs the button's action, which answers with a new
    button state and optionally a text to scroll. Every LED change goes
    through the `Launchpad` driver, so the outcome of each operation is the
    sequence of messages appended to its output log. */
module Layouts {
  import opened Wrappers
  import opened Enums
  import opened Errors
  import opened Midi
  import opened Glyphs
  import opened Scrolling
  import opened Protocol
  import opened Launchpads

  /** The state of a button, which decides the colour it shows. */
  datatype ButtonState = StateOn | StateOff | StateErr

  /** `RGB(r=255)`: full red, the default error colour and text colour. */
  const FullRed := RGB(255, 0, 0)

  /** One entry of the configuration's `layout` list. The colours arrive
      parsed; `colorErr` is absent when the entry has no `color_err`. */
  datatype ButtonData = ButtonData(id: int, action: string, colorOn: RGB, colorOff: RGB, colorErr: Option<RGB>)

  /** An LED to light: the LED number and its colour. */
  datatype Light = Light(n: int, color: RGB)

  /** The colour a button shows in a state: `color_on` when on, `color_off`
      otherwise (the error colour is never shown). */
  function Shown(state: ButtonState, on: RGB, off: RGB): RGB {
    if state == StateOn then on else off
  }

  // ---- the outcome of a run of `led_on` calls ----

  /** Messages sent, and the exception that ended the run, if one did. */
  datatype Outcome = Outcome(msgs: seq<WireMsg>, err: Option<LaunchpadError>)

  predicate Selectable(model: Model, l: Light) {
    Selects(model, Some(l.n), None, None)
  }

  /** `led_on(color, n=n)`: the LED's message, or the selection error. */
  function LightMsg(model: Model, l: Light): Result<WireMsg, LaunchpadError> {
    if Selectable(model, l) then Ok(LedMsg(model, l.color, l.n))
    else Err(LEDSelectionError(Some(l.n), None, None))
  }

  /** `LightMsg` is what the driver's `led_on` does for an LED number. */
  lemma LightMsgIsLedOn(model: Model, l: Light)
    ensures LightMsg(model, l) == LedOnMsg(model, l.color, Some(l.n), None, None)
  {
    if Selectable(model, l) {
      LedOnNumber(model, l.color, l.n);
    }
  }

  /** Lighting `ls` one after the other: the first `led_on` that raises ends
      the run, and nothing after it is sent. */
  function LightsOutcome(model: Model, ls: seq<Light>): (o: Outcome)
    ensures |o.msgs| <= |ls|
    ensures o.err.None? ==> |o.msgs| == |ls|
    decreases |ls|
  {
    if ls == [] then Outcome([], None)
    else
      var o := LightsOutcome(model, ls[..|ls| - 1]);
      if o.err.Some? then o
      else match LightMsg(model, ls[|ls| - 1])
        case Ok(m) => Outcome(o.msgs + [m], None)
        case Err(e) => Outcome(o.msgs, Some(e))
  }

  /** When every LED can be selected, the run sends one message per LED, in
      order, and raises nothing. */
  lemma {:induction false} LightsOutcomeAllSelect(model: Model, ls: seq<Light>)
    requires forall i :: 0 <= i < |ls| ==> Selectable(model, ls[i])
    ensures LightsOutcome(model, ls).err == None
    ensures |LightsOutcome(model, ls).msgs| == |ls|
    ensures forall i :: 0 <= i < |ls| ==> LightsOutcome(model, ls).msgs[i] == LedMsg(model, ls[i].color, ls[i].n)
    decreases |ls|
  {
    if ls != [] {
      var front := ls[..|ls| - 1];
      LightsOutcomeAllSelect(model, front);
    }
  }

  /** When LED `k` is the first that cannot be selected, the run sends the
      messages of the LEDs before it and raises the selection error for it. */
  lemma {:induction false} LightsOutcomeStops(model: Model, ls: seq<Light>, k: nat)
    requires k < |ls| && !Selectable(model, ls[k])
    requires forall i :: 0 <= i < k ==> Selectable(model, ls[i])
    ensures LightsOutcome(model, ls) == Outcome(LightsOutcome(model, ls[..k]).msgs, Some(LEDSelectionError(Some(ls[k].n), None, None)))
    decreases |ls|
  {
    var front := ls[..|ls| - 1];
    if k == |ls| - 1 {
      assert ls[..k] == front;
      LightsOutcomeAllSelect(model, front);
    } else {
      assert front[..k] == ls[..k];
      LightsOutcomeStops(model, front, k);
    }
  }

  /** The run raises exactly when some LED cannot be selected. */
  lemma {:induction false} LightsOutcomeFails(model: Model, ls: seq<Light>)
    ensures LightsOutcome(model, ls).err.Some? <==> exists i :: 0 <= i < |ls| && !Selectable(model, ls[i])
    decreases |ls|
  {
    if ls != [] {
      var front := ls[..|ls| - 1];
      LightsOutcomeFails(model, front);
      if exists i :: 0 <= i < |front| && !Selectable(model, front[i]) {
        var i :| 0 <= i < |front| && !Selectable(model, front[i]);
        assert ls[i] == front[i];
      }
      if exists i :: 0 <= i < |ls| && !Selectable(model, ls[i]) {
        var i :| 0 <= i < |ls| && !Selectable(model, ls[i]);
        if i < |front| {
          assert front[i] == ls[i];
        }
      }
    }
  }

  /** `reset_buttons`: all LEDs cleared with `led_all_on(Color.black)`, then
      every button relit. */
  function ResetOutcome(model: Model, ls: seq<Light>): (o: Outcome)
    ensures AllOnMsgs(model, Black) <= o.msgs
    ensures o.err == LightsOutcome(model, ls).err
  {
    var r := LightsOutcome(model, ls);
    Outcome(AllOnMsgs(model, Black) + r.msgs, r.err)
  }

  /** With every button selectable, a reset clears the board first and then
      relights each button exactly once, in order. */
  lemma ResetRelightsEach(model: Model, ls: seq<Light>)
    requires forall i :: 0 <= i < |ls| ==> Selectable(model, ls[i])
    ensures var o := ResetOutcome(model, ls); var a := |AllOnMsgs(model, Black)|;
      o.err == None && |o.msgs| == a + |ls| &&
      o.msgs[..a] == AllOnMsgs(model, Black) &&
      forall i :: 0 <= i < |ls| ==> o.msgs[a + i] == LedMsg(model, ls[i].color, ls[i].n)
  {
    LightsOutcomeAllSelect(model, ls);
  }

  // ---- action results ----

  /** The JSON object an action prints: `state`, and optionally `text`,
      `text_color` (parsed) and `scroll` (a raw integer). */
  datatype ResultData = ResultData(state: ButtonState, text: Option<string>, textColor: Option<RGB>, scroll: Option<int>)

  /** `Result`: the new state, an optional text, its colour and scrolling. */
  datatype ActionResult = ActionResult(state: ButtonState, text: Option<string>, textColor: RGB, scroll: Scroll)

  /** Why a layout operation stopped: `Scroll(v)` raised ValueError, or an
      `led_on` raised. */
  datatype LayoutError = ScrollValueError(value: int) | LedError(error: LaunchpadError)

  /** `Result.from_dict`: absent fields take the defaults (no text, red text,
      scroll left); a `scroll` that names no direction raises. */
  function ResultFromDict(d: ResultData): (r: Result<ActionResult, LayoutError>)
    ensures r.Err? <==> d.scroll.Some? && ScrollOf(d.scroll.value).None?
    ensures r.Err? ==> r.error == ScrollValueError(d.scroll.value)
    ensures r.Ok? ==> r.value.state == d.state && r.value.text == d.text
    ensures r.Ok? ==> r.value.textColor == (if d.textColor.Some? then d.textColor.value else FullRed)
    ensures r.Ok? ==> r.value.scroll.Value() == (if d.scroll.Some? then d.scroll.value else -1)
  {
    var color := if d.textColor.Some? then d.textColor.value else FullRed;
    if d.scroll.None? then Ok(ActionResult(d.state, d.text, color, ScrollLeft))
    else match ScrollOf(d.scroll.value)
      case None => Err(ScrollValueError(d.scroll.value))
      case Some(s) => Ok(ActionResult(d.state, d.text, color, s))
  }

  /** A result carrying only a state has the defaults: no text, full red,
      scroll left. */
  lemma ResultDefaults(s: ButtonState)
    ensures ResultFromDict(ResultData(s, None, None, None)) == Ok(ActionResult(s, None, FullRed, ScrollLeft))
  {
  }

  /** `execute` up to `set_state`: when the result has text, the text is
      written, then the buttons are reset from their states `ls`. */
  function BeforeSetState(model: Model, table: GlyphTable, ls: seq<Light>, r: ActionResult): (o: Outcome)
    ensures r.text.None? ==> o == Outcome([], None)
  {
    if r.text.None? then Outcome([], None)
    else
      var reset := ResetOutcome(model, ls);
      Outcome(DrawsMsgs(model, table, Schedule(r.text.value, r.scroll), r.textColor) + reset.msgs, reset.err)
  }

  /** The whole of `execute` once the result is parsed: `set_state` is
      reached when the reset raised nothing, and relights the one button
      `lit` in its new colour. */
  function ExecuteOutcome(model: Model, table: GlyphTable, ls: seq<Light>, r: ActionResult, lit: Light): (o: Outcome)
  {
    var pre := BeforeSetState(model, table, ls, r);
    if pre.err.Some? then pre
    else
      var last := LightsOutcome(model, [lit]);
      Outcome(pre.msgs + last.msgs, last.err)
  }

  /** The order `execute` promises when nothing raises: without text only
      the button is relit; with text, the text, then the cleared board and
      every button, then the button in its new colour. */
  lemma ExecuteOrder(model: Model, table: GlyphTable, ls: seq<Light>, r: ActionResult, lit: Light)
    requires forall i :: 0 <= i < |ls| ==> Selectable(model, ls[i])
    requires Selectable(model, lit)
    ensures var o := ExecuteOutcome(model, table, ls, r, lit);
      var shown := if r.text.None? then []
        else DrawsMsgs(model, table, Schedule(r.text.value, r.scroll), r.textColor) + ResetOutcome(model, ls).msgs;
      o.err == None && o.msgs == shown + [LedMsg(model, lit.color, lit.n)]
  {
    LightsOutcomeAllSelect(model, ls);
    LightsOutcomeAllSelect(model, [lit]);
  }

  // ---- incoming events ----

  /** What `callback` does with a message. */
  datatype Action = Ignore | ResetAll | RunButton(id: int)

  /** The button reset key. */
  const ResetButton := 19

  /** `callback`'s filter: only a note-on (144) at full velocity (127)
      counts; button 19 resets, a configured button runs, anything else is
      ignored. */
  function EventAction(status: int, note: int, value: int, known: set<int>): (a: Action)
    ensures a != Ignore <==> status == 144 && value == 127 && (note == ResetButton || note in known)
    ensures a == ResetAll <==> status == 144 && value == 127 && note == ResetButton
    ensures a.RunButton? ==> a.id == note && note in known && note != ResetButton
  {
    if status == 144 && value == 127 then
      if note == ResetButton then ResetAll
      else if note in known then RunButton(note)
      else Ignore
    else Ignore
  }

  /** A button configured with id 19 can never run its action. */
  lemma ResetButtonNeverRuns(status: int, value: int, known: set<int>)
    ensures !EventAction(status, ResetButton, value, known).RunButton?
  {
  }

  // ---- loading ----

  /** The layout map built from the entries: a later entry with an id
      replaces an earlier one. */
  function Loaded(data: seq<ButtonData>): map<int, ButtonData>
    decreases |data|
  {
    if data == [] then map[]
    else Loaded(data[..|data| - 1])[data[|data| - 1].id := data[|data| - 1]]
  }

  /** The map has exactly the ids of the entries as keys. */
  lemma {:induction false} LoadedKeys(data: seq<ButtonData>)
    ensures Loaded(data).Keys == set i | 0 <= i < |data| :: data[i].id
    decreases |data|
  {
    if data != [] {
      var front := data[..|data| - 1];
      LoadedKeys(front);
      assert forall i :: 0 <= i < |front| ==> front[i] == data[i];
    }
  }

  /** The map keeps, for every id, the last entry carrying it. */
  lemma {:induction false} LoadedLast(data: seq<ButtonData>, k: nat)
    requires k < |data|
    requires forall i :: k < i < |data| ==> data[i].id != data[k].id
    ensures data[k].id in Loaded(data) && Loaded(data)[data[k].id] == data[k]
    decreases |data|
  {
    if k < |data| - 1 {
      LoadedLast(data[..|data| - 1], k);
    }
  }

  /** The dict's iteration order: ids in order of first appearance. */
  function FirstIds(data: seq<ButtonData>): seq<int>
    decreases |data|
  {
    if data == [] then []
    else
      var ids := FirstIds(data[..|data| - 1]);
      if data[|data| - 1].id in ids then ids else ids + [data[|data| - 1].id]
  }

  /** The order lists every key of the map exactly once. */
  lemma {:induction false} FirstIdsDistinct(data: seq<ButtonData>)
    ensures forall i, j :: 0 <= i < j < |FirstIds(data)| ==> FirstIds(data)[i] != FirstIds(data)[j]
    ensures forall x :: x in FirstIds(data) <==> x in Loaded(data)
    decreases |data|
  {
    if data != [] {
      FirstIdsDistinct(data[..|data| - 1]);
    }
  }

  /** The colour `color_err` takes: the entry's, or full red. */
  function ErrColor(d: ButtonData): RGB {
    if d.colorErr.Some? then d.colorErr.value else FullRed
  }

  /** What every button of a freshly loaded layout shows: its off colour, in
      the dict's order. */
  function OffLights(data: seq<ButtonData>, ids: seq<int>): (ls: seq<Light>)
    requires forall i :: 0 <= i < |ids| ==> ids[i] in Loaded(data)
    ensures |ls| == |ids|
    ensures forall i :: 0 <= i < |ids| ==> ls[i] == Light(ids[i], Loaded(data)[ids[i]].colorOff)
    decreases |ids|
  {
    if ids == [] then []
    else OffLights(data, ids[..|ids| - 1]) + [Light(ids[|ids| - 1], Loaded(data)[ids[|ids| - 1]].colorOff)]
  }

  // ---- the objects ----

  /** A configured button; only its state changes after loading. */
  class Button {
    const lp: Launchpad
    const id: int
    const action: string
    var state: ButtonState
    const colorOn: RGB
    const colorOff: RGB
    const colorErr: RGB

    /** `Button.from_dict`: a new button is off; `color_err` is full red
        unless the entry gives one. */
    constructor FromDict(lp: Launchpad, d: ButtonData)
      ensures Built(lp, d) && state == StateOff
    {
      this.lp := lp;
      id := d.id;
      action := d.action;
      state := StateOff;
      colorOn := d.colorOn;
      colorOff := d.colorOff;
      colorErr := ErrColor(d);
    }

    /** The button's configuration is the one `from_dict` takes from `d`. */
    ghost predicate Built(lp: Launchpad, d: ButtonData) {
      this.lp == lp && id == d.id && action == d.action &&
      colorOn == d.colorOn && colorOff == d.colorOff && colorErr == ErrColor(d)
    }

    /** The LED this button lights, in the colour of its state. */
    function Lit(): Light
      reads this
    {
      Light(id, Shown(state, colorOn, colorOff))
    }

    /** `light_on`: `led_on(color, n=id)` with the colour of the state. */
    method LightOn() returns (err: Option<LaunchpadError>)
      requires lp.CanSend()
      modifies lp.output
      ensures lp.CanSend() && lp.output.port == old(lp.output.port)
      ensures var o := LightsOutcome(lp.model, [Lit()]);
        lp.output.sent == old(lp.output.sent) + o.msgs && err == o.err
    {
      assert [Lit()][..0] == [];
      LightMsgIsLedOn(lp.model, Lit());
      err := lp.LedOn(Shown(state, colorOn, colorOff), Some(id), None, None);
    }

    /** `set_state`: the state is stored first, then only this button is
        relit. */
    method SetState(s: ButtonState) returns (err: Option<LaunchpadError>)
      requires lp.CanSend()
      modifies this, lp.output
      ensures state == s
      ensures lp.CanSend() && lp.output.port == old(lp.output.port)
      ensures var o := LightsOutcome(lp.model, [Light(id, Shown(s, colorOn, colorOff))]);
        lp.output.sent == old(lp.output.sent) + o.msgs && err == o.err
    {
      state := s;
      err := LightOn();
    }

    /** `light_off` as written: `led_on(RGB())` names no LED, so over the
        corrected `led_on` it raises a selection error and sends nothing. On
        the two-colour pad the uncorrected `led_on` raises AttributeError on
        the colour first. */
    method LightOffAsWritten() returns (err: Option<LaunchpadError>)
      requires lp.CanSend()
      modifies lp.output
      ensures err == Some(NewLEDSelectionError(None, None, None))
      ensures lp.output.sent == old(lp.output.sent)
    {
      err := lp.LedOn(RGB(), None, None, None);
    }

    /** `light_off` as intended: this button's LED turned black. */
    method LightOff() returns (err: Option<LaunchpadError>)
      requires lp.CanSend()
      modifies lp.output
      ensures lp.CanSend() && lp.output.port == old(lp.output.port)
      ensures Selectable(lp.model, Light(id, RGB())) ==>
        err == None && lp.output.sent == old(lp.output.sent) + [LedMsg(lp.model, RGB(), id)]
      ensures !Selectable(lp.model, Light(id, RGB())) ==>
        err == Some(NewLEDSelectionError(Some(id), None, None)) && lp.output.sent == old(lp.output.sent)
    {
      err := lp.LedOn(RGB(), Some(id), None, None);
      if err == None {
        LedOnNumber(lp.model, RGB(), id);
      }
    }
  }

  /** A loaded layout: the buttons by id, in the dict's insertion order. */
  class Layout {
    const launchpad: Launchpad
    var layout: map<int, Button>
    var order: seq<int>

    /** Every button is stored under its own id and drives this layout's
        launchpad; `order` lists the ids of the map (each once, as loading
        ensures). */
    ghost predicate Valid()
      reads this
    {
      (forall id :: id in layout ==> layout[id].id == id) &&
      (forall b :: b in layout.Values ==> b.lp == launchpad) &&
      (forall i :: 0 <= i < |order| ==> order[i] in layout) &&
      (forall id :: id in layout ==> id in order)
    }

    /** The LEDs of the buttons `ids`, each in the colour of its state. */
    function LightsOf(ids: seq<int>): (ls: seq<Light>)
      requires forall i :: 0 <= i < |ids| ==> ids[i] in layout
      reads this, layout.Values
      ensures |ls| == |ids|
      decreases |ids|
    {
      if ids == [] then []
      else LightsOf(ids[..|ids| - 1]) + [layout[ids[|ids| - 1]].Lit()]
    }

    /** What `reset_buttons` relights: every button, in the dict's order. */
    function Lights(): seq<Light>
      requires Valid()
      reads this, layout.Values
    {
      LightsOf(order)
    }

    /** `Layout(path, launchpad)` without the file reading: the buttons built
        from the entries in order, a later id replacing an earlier one while
        keeping its place. */
    constructor(launchpad: Launchpad, data: seq<ButtonData>)
      ensures this.launchpad == launchpad && Valid()
      ensures order == FirstIds(data) && layout.Keys == Loaded(data).Keys
      ensures forall id :: id in layout ==> fresh(layout[id]) && layout[id].state == StateOff
      ensures forall id :: id in layout ==> layout[id].Built(launchpad, Loaded(data)[id])
    {
      this.launchpad := launchpad;
      layout := map[];
      order := [];
      new;
      var i := 0;
      while i < |data|
        invariant 0 <= i <= |data|
        invariant this.launchpad == launchpad && Valid()
        invariant order == FirstIds(data[..i]) && layout.Keys == Loaded(data[..i]).Keys
        invariant forall id :: id in layout ==> fresh(layout[id]) && layout[id].state == StateOff
        invariant forall id :: id in layout ==> layout[id].Built(launchpad, Loaded(data[..i])[id])
      {
        LoadEntry(data, i);
        i := i + 1;
      }
      assert data[..|data|] == data;
    }

    /** One pass of the loading loop, stated over the entries loaded so far. */
    method LoadEntry(data: seq<ButtonData>, i: nat)
      requires i < |data| && Valid()
      requires order == FirstIds(data[..i]) && layout.Keys == Loaded(data[..i]).Keys
      requires forall id :: id in layout ==> layout[id].state == StateOff
      requires forall id :: id in layout ==> layout[id].Built(launchpad, Loaded(data[..i])[id])
      modifies this
      ensures Valid() && order == FirstIds(data[..i + 1]) && layout.Keys == Loaded(data[..i + 1]).Keys
      ensures forall id :: id in layout ==> (id in old(layout) && layout[id] == old(layout)[id]) || fresh(layout[id])
      ensures forall id :: id in layout ==> layout[id].state == StateOff
      ensures forall id :: id in layout ==> layout[id].Built(launchpad, Loaded(data[..i + 1])[id])
    {
      LoadedSnoc(data, i);
      AddButton(data[i]);
    }

    /** One pass of the loading loop: `self.layout[button.id] = button`. */
    method AddButton(d: ButtonData)
      requires Valid()
      modifies this
      ensures Valid() && d.id in layout && fresh(layout[d.id])
      ensures layout[d.id].Built(launchpad, d) && layout[d.id].state == StateOff
      ensures forall id :: id in old(layout) && id != d.id ==> id in layout && layout[id] == old(layout)[id]
      ensures layout.Keys == old(layout).Keys + {d.id}
      ensures order == if d.id in old(layout) then old(order) else old(order) + [d.id]
    {
      var b := new Button.FromDict(launchpad, d);
      if b.id !in layout {
        order := order + [b.id];
      }
      layout := layout[b.id := b];
    }

    /** `reset_buttons`: clear every LED, then relight each button once, in
        the dict's order; an `led_on` that raises ends it. */
    method ResetButtons() returns (err: Option<LaunchpadError>)
      requires Valid() && launchpad.CanSend()
      modifies launchpad.output
      ensures launchpad.CanSend() && launchpad.output.port == old(launchpad.output.port)
      ensures var o := ResetOutcome(launchpad.model, old(Lights()));
        launchpad.output.sent == old(launchpad.output.sent) + o.msgs && err == o.err
    {
      ghost var ls := Lights();
      launchpad.LedAllOn(Black);
      err := RelightButtons();
      AppendAssoc(old(launchpad.output.sent), AllOnMsgs(launchpad.model, Black), LightsOutcome(launchpad.model, ls).msgs);
    }

    /** The loop of `reset_buttons`: each button relit in the dict's order. */
    method RelightButtons() returns (err: Option<LaunchpadError>)
      requires Valid() && launchpad.CanSend()
      modifies launchpad.output
      ensures launchpad.CanSend() && launchpad.output.port == old(launchpad.output.port)
      ensures var o := LightsOutcome(launchpad.model, old(Lights()));
        launchpad.output.sent == old(launchpad.output.sent) + o.msgs && err == o.err
    {
      ghost var ls := Lights();
      LightsOfIndex(order);
      err := None;
      var i := 0;
      while i < |order|
        invariant 0 <= i <= |order|
        invariant launchpad.CanSend() && launchpad.output.port == old(launchpad.output.port)
        invariant err == None && LightsOutcome(launchpad.model, ls[..i]).err == None
        invariant launchpad.output.sent == old(launchpad.output.sent) + LightsOutcome(launchpad.model, ls[..i]).msgs
      {
        var b := layout[order[i]];
        assert b.Lit() == ls[i];
        err := b.LightOn();
        TakeSnoc(ls, i);
        LightsOutcomeSnoc(launchpad.model, ls[..i], ls[i]);
        AppendAssoc(old(launchpad.output.sent), LightsOutcome(launchpad.model, ls[..i]).msgs, LightsOutcome(launchpad.model, [ls[i]]).msgs);
        if err.Some? {
          LightsOutcomeStopsHere(launchpad.model, ls[..i + 1], ls);
          return;
        }
        i := i + 1;
      }
      assert ls[..|ls|] == ls;
    }

    /** Entry `k` of the lights is button `ids[k]`'s. */
    lemma {:induction false} LightsOfIndex(ids: seq<int>)
      requires forall k :: 0 <= k < |ids| ==> ids[k] in layout
      ensures forall k :: 0 <= k < |ids| ==> LightsOf(ids)[k] == layout[ids[k]].Lit()
      decreases |ids|
    {
      if ids != [] {
        LightsOfIndex(ids[..|ids| - 1]);
      }
    }

    /** The lights of the first `i + 1` ids: those of the first `i`, then
        button `order[i]`'s. */
    lemma LightsOfSnoc(ids: seq<int>, i: nat)
      requires i < |ids| && forall k :: 0 <= k < |ids| ==> ids[k] in layout
      ensures LightsOf(ids[..i + 1]) == LightsOf(ids[..i]) + [layout[ids[i]].Lit()]
    {
      assert ids[..i + 1][..i] == ids[..i];
    }

    /** The lights of a prefix of the ids are a prefix of the lights. */
    lemma {:induction false} LightsOfPrefix(ids: seq<int>, i: nat)
      requires i <= |ids| && forall k :: 0 <= k < |ids| ==> ids[k] in layout
      ensures LightsOf(ids[..i]) <= LightsOf(ids)
      decreases |ids| - i
    {
      if i < |ids| {
        LightsOfSnoc(ids, i);
        LightsOfPrefix(ids, i + 1);
      } else {
        assert ids[..i] == ids;
      }
    }

    /** The text part of `execute`: when the result has a text, the text
        written, then `reset_buttons`; otherwise nothing. */
    method ShowText(r: ActionResult) returns (err: Option<LaunchpadError>)
      requires Valid() && launchpad.CanSend()
      modifies launchpad.output
      ensures launchpad.CanSend() && launchpad.output.port == old(launchpad.output.port)
      ensures var pre := BeforeSetState(launchpad.model, launchpad.table, old(Lights()), r);
        launchpad.output.sent == old(launchpad.output.sent) + pre.msgs && err == pre.err
    {
      err := None;
      if r.text.Some? {
        ghost var ls := Lights();
        ghost var text := DrawsMsgs(launchpad.model, launchpad.table, Schedule(r.text.value, r.scroll), r.textColor);
        launchpad.WriteString(r.text.value, r.textColor, r.scroll);
        assert Lights() == ls;
        err := ResetButtons();
        AppendAssoc(old(launchpad.output.sent), text, ResetOutcome(launchpad.model, ls).msgs);
      }
    }

    /** `execute(button)` once the action has run and printed `reply`: the
        result is parsed, its text (if any) written and the board reset, and
        then the button's new state set. */
    method Execute(button: Button, reply: ResultData) returns (err: Option<LayoutError>)
      requires Valid() && launchpad.CanSend() && button in layout.Values
      modifies launchpad.output, button
      ensures launchpad.CanSend() && launchpad.output.port == old(launchpad.output.port)
      ensures ResultFromDict(reply).Err? ==>
        err == Some(ResultFromDict(reply).error) && launchpad.output.sent == old(launchpad.output.sent) && button.state == old(button.state)
      ensures ResultFromDict(reply).Ok? ==>
        var r := ResultFromDict(reply).value;
        var o := ExecuteOutcome(launchpad.model, launchpad.table, old(Lights()), r, Light(button.id, Shown(r.state, button.colorOn, button.colorOff)));
        launchpad.output.sent == old(launchpad.output.sent) + o.msgs &&
        err == (if o.err.Some? then Some(LedError(o.err.value)) else None) &&
        button.state == (if BeforeSetState(launchpad.model, launchpad.table, old(Lights()), r).err.None? then r.state else old(button.state))
    {
      var parsed := ResultFromDict(reply);
      if parsed.Err? {
        return Some(parsed.error);
      }
      var e := ApplyResult(button, parsed.value);
      err := if e.Some? then Some(LedError(e.value)) else None;
    }

    /** The part of `execute` after the result is parsed. */
    method ApplyResult(button: Button, r: ActionResult) returns (err: Option<LaunchpadError>)
      requires Valid() && launchpad.CanSend() && button in layout.Values
      modifies launchpad.output, button
      ensures launchpad.CanSend() && launchpad.output.port == old(launchpad.output.port)
      ensures var pre := BeforeSetState(launchpad.model, launchpad.table, old(Lights()), r);
        pre.err.Some? ==> launchpad.output.sent == old(launchpad.output.sent) + pre.msgs && err == pre.err && button.state == old(button.state)
      ensures var pre := BeforeSetState(launchpad.model, launchpad.table, old(Lights()), r);
        var last := LightsOutcome(launchpad.model, [Light(button.id, Shown(r.state, button.colorOn, button.colorOff))]);
        pre.err.None? ==> launchpad.output.sent == old(launchpad.output.sent) + (pre.msgs + last.msgs) && err == last.err && button.state == r.state
    {
      err := ShowText(r);
      if err.Some? {
        return;
      }
      err := button.SetState(r.state);
      AppendAssoc(old(launchpad.output.sent), BeforeSetState(launchpad.model, launchpad.table, old(Lights()), r).msgs,
        LightsOutcome(launchpad.model, [Light(button.id, Shown(r.state, button.colorOn, button.colorOff))]).msgs);
    }

    /** `callback(msg)` for a message `(status, note, value)`; `reply` is what
        the button's action prints if it is run. */
    method Callback(status: int, note: int, value: int, reply: ResultData) returns (err: Option<LayoutError>)
      requires Valid() && launchpad.CanSend()
      modifies launchpad.output, layout.Values
      ensures launchpad.CanSend() && launchpad.output.port == old(launchpad.output.port)
      ensures EventAction(status, note, value, layout.Keys) == Ignore ==>
        err == None && launchpad.output.sent == old(launchpad.output.sent)
      ensures EventAction(status, note, value, layout.Keys) == ResetAll ==>
        var o := ResetOutcome(launchpad.model, old(Lights()));
        launchpad.output.sent == old(launchpad.output.sent) + o.msgs &&
        err == (if o.err.Some? then Some(LedError(o.err.value)) else None)
      ensures EventAction(status, note, value, layout.Keys).RunButton? && ResultFromDict(reply).Ok? ==>
        var b := layout[note];
        var r := ResultFromDict(reply).value;
        var o := ExecuteOutcome(launchpad.model, launchpad.table, old(Lights()), r, Light(note, Shown(r.state, b.colorOn, b.colorOff)));
        launchpad.output.sent == old(launchpad.output.sent) + o.msgs &&
        err == (if o.err.Some? then Some(LedError(o.err.value)) else None)
      ensures EventAction(status, note, value, layout.Keys).RunButton? && ResultFromDict(reply).Err? ==>
        err == Some(ResultFromDict(reply).error) && launchpad.output.sent == old(launchpad.output.sent)
    {
      err := None;
      match EventAction(status, note, value, layout.Keys)
      case Ignore =>
      case ResetAll =>
        var e := ResetButtons();
        if e.Some? {
          err := Some(LedError(e.value));
        }
      case RunButton(id) =>
        err := Execute(layout[id], reply);
    }

    /** `Layout(path, launchpad)`: the buttons loaded, then `reset_buttons`,
        which clears the board and shows every button in its off colour. */
    static method Load(launchpad: Launchpad, data: seq<ButtonData>) returns (l: Layout, err: Option<LaunchpadError>)
      requires launchpad.CanSend()
      modifies launchpad.output
      ensures fresh(l) && l.launchpad == launchpad && l.Valid()
      ensures l.order == FirstIds(data) && l.layout.Keys == Loaded(data).Keys
      ensures launchpad.CanSend() && launchpad.output.port == old(launchpad.output.port)
      ensures var o := ResetOutcome(launchpad.model, OffLights(data, FirstIds(data)));
        launchpad.output.sent == old(launchpad.output.sent) + o.msgs && err == o.err
    {
      l := new Layout(launchpad, data);
      l.LightsOfOff(data, l.order);
      err := l.ResetButtons();
    }

    /** Freshly built buttons all show their off colour. */
    lemma {:induction false} LightsOfOff(data: seq<ButtonData>, ids: seq<int>)
      requires Valid() && forall i :: 0 <= i < |ids| ==> ids[i] in layout
      requires layout.Keys == Loaded(data).Keys
      requires forall id :: id in layout ==> layout[id].state == StateOff
      requires forall id :: id in layout ==> layout[id].Built(launchpad, Loaded(data)[id])
      ensures LightsOf(ids) == OffLights(data, ids)
      decreases |ids|
    {
      if ids != [] {
        LightsOfOff(data, ids[..|ids| - 1]);
      }
    }
  }

  /** A run that has not raised goes on with the next LED. */
  lemma LightsOutcomeSnoc(model: Model, ls: seq<Light>, l: Light)
    requires LightsOutcome(model, ls).err == None
    ensures var o := LightsOutcome(model, ls); var last := LightsOutcome(model, [l]);
      LightsOutcome(model, ls + [l]) == Outcome(o.msgs + last.msgs, last.err)
  {
    DropLast(ls, l);
    DropLast([], l);
  }

  /** Loading one more entry: its id maps to it, and it joins the order
      unless the id was already there. */
  lemma LoadedSnoc(data: seq<ButtonData>, i: nat)
    requires i < |data|
    ensures Loaded(data[..i + 1]) == Loaded(data[..i])[data[i].id := data[i]]
    ensures FirstIds(data[..i + 1]) ==
      if data[i].id in Loaded(data[..i]) then FirstIds(data[..i]) else FirstIds(data[..i]) + [data[i].id]
  {
    assert data[..i + 1][..i] == data[..i];
    FirstIdsDistinct(data[..i]);
  }

  /** Once the LED run over a prefix has raised, the run over the whole
      sequence raises the same error after the same messages. */
  lemma {:induction false} LightsOutcomeStopsHere(model: Model, pre: seq<Light>, ls: seq<Light>)
    requires pre <= ls && LightsOutcome(model, pre).err.Some?
    ensures LightsOutcome(model, ls) == LightsOutcome(model, pre)
    decreases |ls|
  {
    if |ls| > |pre| {
      assert pre <= ls[..|ls| - 1];
      LightsOutcomeStopsHere(model, pre, ls[..|ls| - 1]);
    } else {
      assert ls == pre;
    }
  }

  // ---- findings ----

  /** The default of the colour parameter of `led_all_on` in the class that
      drives `model`: each model's override declares none, so the base
      class's default black never applies. */
  function AllOnDefault(model: Model): Option<Color> {
    None
  }

  /** `reset_buttons` as written calls `led_all_on()` with no colour: Python
      raises TypeError before anything is sent. */
  function ResetAsWritten(model: Model, ls: seq<Light>): (r: Result<Outcome, string>)
    ensures AllOnDefault(model).None? ==> r == Err("TypeError")
  {
    match AllOnDefault(model)
    case None => Err("TypeError")
    case Some(c) =>
      var o := LightsOutcome(model, ls);
      Ok(Outcome(AllOnMsgs(model, c) + o.msgs, o.err))
  }

  /** As written, every reset of every model raises, while the intended
      reset (with black) clears the board first. */
  lemma ResetAsWrittenRaises(model: Model, ls: seq<Light>)
    ensures ResetAsWritten(model, ls) == Err("TypeError")
    ensures |ResetOutcome(model, ls).msgs| >= 1
  {
  }

  // ---- what `callback` is handed ----

  /** A Python value as far as `callback` looks into it: a tuple, a number,
      or the `Message` object the input device queues. */
  datatype PyValue = Tuple(items: seq<PyValue>) | Int(i: int) | Float(x: real) | MessageObject(m: MidiMessage)

  /** `v[k]`: the item of a tuple, IndexError past its end, TypeError for a
      value without items. */
  function Subscript(v: PyValue, k: nat): (r: Result<PyValue, string>)
    ensures r.Ok? <==> v.Tuple? && k < |v.items|
    ensures !v.Tuple? ==> r == Err("TypeError")
  {
    if !v.Tuple? then Err("TypeError")
    else if k < |v.items| then Ok(v.items[k])
    else Err("IndexError")
  }

  /** `callback(msg)` on whatever value it is handed: `msg[0][0] == 144`,
      then `msg[0][2] == 127` (only when the first holds), then the button
      number `msg[0][1]`; the error of the first subscript that fails. */
  function CallbackOn(msg: PyValue, known: set<int>): (r: Result<Action, string>)
  {
    match Subscript(msg, 0)
    case Err(e) => Err(e)
    case Ok(head) =>
      match Subscript(head, 0)
      case Err(e) => Err(e)
      case Ok(status) =>
        if status != Int(144) then Ok(Ignore)
        else match Subscript(head, 2)
          case Err(e) => Err(e)
          case Ok(value) =>
            if value != Int(127) then Ok(Ignore)
            else match Subscript(head, 1)
              case Err(e) => Err(e)
              case Ok(note) => if note.Int? then Ok(EventAction(144, note.i, 127, known)) else Ok(Ignore)
  }

  /** The message rtmidi delivers: `((status, n, value), diff)`. */
  function RawMessage(status: int, note: int, value: int, diff: real): PyValue {
    Tuple([Tuple([Int(status), Int(note), Int(value)]), Float(diff)])
  }

  /** Handed the raw rtmidi message, `callback` takes exactly the action
      `EventAction` gives, which `Layout.Callback` carries out. */
  lemma CallbackOnRawMessage(status: int, note: int, value: int, diff: real, known: set<int>)
    ensures CallbackOn(RawMessage(status, note, value, diff), known) == Ok(EventAction(status, note, value, known))
  {
    var head := Tuple([Int(status), Int(note), Int(value)]);
    assert Subscript(RawMessage(status, note, value, diff), 0) == Ok(head);
    assert Subscript(head, 0) == Ok(Int(status)) && Subscript(head, 1) == Ok(Int(note)) && Subscript(head, 2) == Ok(Int(value));
  }

  /** `callback` as written: the input device hands it the `Message` object
      it queued, which has no items. */
  function CallbackAsWritten(m: MidiMessage, known: set<int>): (r: Result<Action, string>)
    ensures r.Err?
  {
    CallbackOn(MessageObject(m), known)
  }

  /** `__handle_callbacks` for the layout's callback: each delivered value is
      handed to `callback`, and whatever it raises is caught and dropped. The
      result is the actions taken, in order. */
  function WorkerActions(delivered: seq<PyValue>, known: set<int>): (acts: seq<Action>)
    ensures |acts| <= |delivered|
  {
    if delivered == [] then []
    else
      var acts := WorkerActions(delivered[..|delivered| - 1], known);
      match CallbackOn(delivered[|delivered| - 1], known)
      case Ok(a) => acts + [a]
      case Err(_) => acts
  }

  /** As written, the worker only ever delivers `Message` objects, so no
      press on the pad resets the buttons or runs an action. */
  lemma {:induction false} WorkerNeverActs(delivered: seq<PyValue>, known: set<int>)
    requires forall v :: v in delivered ==> v.MessageObject?
    ensures WorkerActions(delivered, known) == []
  {
    if delivered != [] {
      var front := delivered[..|delivered| - 1];
      assert forall v :: v in front ==> v in delivered;
      WorkerNeverActs(front, known);
      var last := delivered[|delivered| - 1];
      assert last in delivered;
      assert CallbackOn(last, known) == CallbackAsWritten(last.m, known);
    }
  }

  /** Delivered raw messages instead, the worker takes one action per
      message, each the one `EventAction` gives. */
  lemma {:induction false} WorkerRawActs(ms: seq<(int, int, int, real)>, known: set<int>)
    ensures var delivered := seq(|ms|, i requires 0 <= i < |ms| => RawMessage(ms[i].0, ms[i].1, ms[i].2, ms[i].3));
      WorkerActions(delivered, known) == seq(|ms|, i requires 0 <= i < |ms| => EventAction(ms[i].0, ms[i].1, ms[i].2, known))
  {
    var delivered := seq(|ms|, i requires 0 <= i < |ms| => RawMessage(ms[i].0, ms[i].1, ms[i].2, ms[i].3));
    if ms != [] {
      var k := |ms| - 1;
      WorkerRawActs(ms[..k], known);
      assert delivered[..k] == seq(k, i requires 0 <= i < k => RawMessage(ms[..k][i].0, ms[..k][i].1, ms[..k][i].2, ms[..k][i].3));
      CallbackOnRawMessage(ms[k].0, ms[k].1, ms[k].2, ms[k].3, known);
    }
  }
}
