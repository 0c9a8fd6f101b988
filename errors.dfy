/** The exception hierarchy of the driver: a code, a message and a string form
    `ClassName(codeName: message)`. */
module Errors {
  import opened Wrappers
  import opened Enums

  datatype ErrorCode = Unknown | ValueError | DeviceNotFoundCode | LedSelectionErrorCode {
    /** The member name, as `code.name` prints it. */
    function Name(): (s: string)
      ensures ':' !in s
    {
      match this
      case Unknown => "unknown"
      case ValueError => "value_error"
      case DeviceNotFoundCode => "device_not_found"
      case LedSelectionErrorCode => "led_selection_error"
    }

    /** The member value. */
    function Value(): string {
      match this
      case Unknown => "unknown"
      case ValueError => "value error"
      case DeviceNotFoundCode => "device not found"
      case LedSelectionErrorCode => "led selection error"
    }
  }

  /** Which of the three not-found classes raised the error. */
  datatype NotFoundClass = AnyDirection | InputOnly | OutputOnly

  /** `LaunchpadError` and its subclasses. `direction == None` in `DeviceNotFound`
      stands for a direction argument that is neither member of `Direction`. */
  datatype LaunchpadError =
    | LaunchpadError(message: string, code: ErrorCode)
    | DeviceNotFound(cls: NotFoundClass, name: string, direction: Option<Direction>)
    | LEDSelectionError(n: Option<int>, x: Option<int>, y: Option<int>)
  {
    function Code(): ErrorCode {
      match this
      case LaunchpadError(_, code) => code
      case DeviceNotFound(_, _, _) => DeviceNotFoundCode
      case LEDSelectionError(_, _, _) => LedSelectionErrorCode
    }

    function Message(): string {
      match this
      case LaunchpadError(message, _) => message
      case DeviceNotFound(_, name, direction) => NotFoundMessage(name, direction)
      case LEDSelectionError(n, x, y) =>
        "Invalid LED selection: n=" + OptionalIntString(n) + ", x=" + OptionalIntString(x)
        + ", y=" + OptionalIntString(y)
    }

    function ClassName(): (s: string)
      ensures '(' !in s
    {
      match this
      case LaunchpadError(_, _) => "LaunchpadError"
      case DeviceNotFound(AnyDirection, _, _) => "DeviceNotFound"
      case DeviceNotFound(InputOnly, _, _) => "InputDeviceNotFound"
      case DeviceNotFound(OutputOnly, _, _) => "OutputDeviceNotFound"
      case LEDSelectionError(_, _, _) => "LEDSelectionError"
    }

    /** `__str__` (and `__repr__`). */
    function Str(): string {
      ClassName() + "(" + Code().Name() + ": " + Message() + ")"
    }
  }

  /** `LaunchpadError(message, code=Code.unknown)`. */
  function NewLaunchpadError(message: string, code: ErrorCode := Unknown): (e: LaunchpadError)
    ensures e.Message() == message && e.Code() == code && e.ClassName() == "LaunchpadError"
  {
    LaunchpadError(message, code)
  }

  /** `DeviceNotFound(name, direction)`: always the device-not-found code. */
  function NewDeviceNotFound(name: string, direction: Option<Direction>): (e: LaunchpadError)
    ensures e.Code() == DeviceNotFoundCode && e.ClassName() == "DeviceNotFound"
    ensures e.name == name && e.direction == direction
  {
    DeviceNotFound(AnyDirection, name, direction)
  }

  /** `InputDeviceNotFound(name)`: a `DeviceNotFound` whose direction is input. */
  function NewInputDeviceNotFound(name: string): (e: LaunchpadError)
    ensures e.Code() == DeviceNotFoundCode && e.ClassName() == "InputDeviceNotFound"
    ensures e.Message() == NewDeviceNotFound(name, Some(Input)).Message()
  {
    DeviceNotFound(InputOnly, name, Some(Input))
  }

  /** `OutputDeviceNotFound(name)`: a `DeviceNotFound` whose direction is output. */
  function NewOutputDeviceNotFound(name: string): (e: LaunchpadError)
    ensures e.Code() == DeviceNotFoundCode && e.ClassName() == "OutputDeviceNotFound"
    ensures e.Message() == NewDeviceNotFound(name, Some(Output)).Message()
  {
    DeviceNotFound(OutputOnly, name, Some(Output))
  }

  /** `LEDSelectionError(n, x, y)`: keeps the selection it was raised for. */
  function NewLEDSelectionError(n: Option<int>, x: Option<int>, y: Option<int>): (e: LaunchpadError)
    ensures e.Code() == LedSelectionErrorCode && e.ClassName() == "LEDSelectionError"
    ensures e.n == n && e.x == x && e.y == y
  {
    LEDSelectionError(n, x, y)
  }

  /** The not-found message: the direction picks the first words, the name sits in brackets. */
  function NotFoundMessage(name: string, direction: Option<Direction>): (m: string)
    ensures |m| >= |name| + 12 && m[|m| - 12 - |name|..|m| - 12] == name
    ensures m[|m| - 12..] == "] not found."
  {
    var lead := match direction
      case Some(Input) => "Input device ["
      case Some(Output) => "Output device ["
      case None => "Device [";
    var m := lead + name + "] not found.";
    assert m[|m| - 12 - |name|..|m| - 12] == name;
    m
  }

  /** The direction can be read off the message: different directions never share one. */
  lemma NotFoundMessageDeterminesDirection(name: string, d1: Option<Direction>, d2: Option<Direction>)
    requires d1 != d2
    ensures NotFoundMessage(name, d1) != NotFoundMessage(name, d2)
  {
    var m1, m2 := NotFoundMessage(name, d1), NotFoundMessage(name, d2);
    if d1 == None || d2 == None {
      assert m1[0] != m2[0];
    } else {
      assert m1[0] != m2[0];
    }
  }

  /** Python's `str(v)` for an optional integer. */
  function OptionalIntString(v: Option<int>): string {
    match v
    case None => "None"
    case Some(i) => IntString(i)
  }

  function IntString(i: int): (s: string)
    ensures |s| > 0
  {
    if i < 0 then "-" + NatString(-i) else NatString(i)
  }

  function NatString(n: nat): (s: string)
    ensures |s| > 0 && forall k :: 0 <= k < |s| ==> '0' <= s[k] <= '9'
  {
    var d := ['0' + (n % 10) as char];
    if n < 10 then d else NatString(n / 10) + d
  }

  /** The position of the first `c` in `s`, if any. */
  function IndexOf(s: string, c: char): (r: Option<nat>)
    ensures r.Some? ==> r.value < |s| && s[r.value] == c && c !in s[..r.value]
    ensures r.None? ==> c !in s
  {
    if s == [] then None
    else if s[0] == c then Some(0)
    else match IndexOf(s[1..], c)
      case None => None
      case Some(k) => assert s[..k + 1] == [s[0]] + s[1..][..k]; Some(k + 1)
  }

  /** Split a string form back into class name, code name and message. */
  function ParseStr(s: string): Option<(string, string, string)> {
    match IndexOf(s, '(')
    case None => None
    case Some(i) =>
      var rest := s[i + 1..];
      match IndexOf(rest, ':')
      case None => None
      case Some(j) =>
        if j + 2 <= |rest| - 1 && rest[j + 1] == ' ' && rest[|rest| - 1] == ')' then
          Some((s[..i], rest[..j], rest[j + 2..|rest| - 1]))
        else None
  }

  lemma {:induction false} IndexOfAfterPrefix(a: string, c: char, b: string)
    requires c !in a
    ensures IndexOf(a + [c] + b, c) == Some(|a|)
  {
    var s := a + [c] + b;
    if a != [] {
      assert s[0] == a[0] && s[1..] == a[1..] + [c] + b;
      IndexOfAfterPrefix(a[1..], c, b);
    }
  }

  lemma SplitAround(a: string, c: char, b: string)
    ensures (a + [c] + b)[..|a|] == a && (a + [c] + b)[|a| + 1..] == b && (a + [c] + b)[|a|] == c
  {
  }

  lemma SplitTail(a: string, c: char, msg: string)
    ensures var s := a + [c] + (" " + msg + ")"); s[|a| + 2..|s| - 1] == msg && s[|a| + 1] == ' ' && s[|s| - 1] == ')'
  {
    var s := a + [c] + (" " + msg + ")");
    assert s == a + [c, ' '] + msg + [')'];
  }

  /** `ParseStr` at known positions of `(` and of the `:` after it. */
  lemma ParseStrAt(s: string, i: nat, rest: string, j: nat, cls: string, code: string, msg: string)
    requires IndexOf(s, '(') == Some(i) && i < |s| && s[i + 1..] == rest && s[..i] == cls
    requires IndexOf(rest, ':') == Some(j)
    requires j + 2 <= |rest| - 1 && rest[j + 1] == ' ' && rest[|rest| - 1] == ')'
    requires rest[..j] == code && rest[j + 2..|rest| - 1] == msg
    ensures ParseStr(s) == Some((cls, code, msg))
  {
  }

  /** Where the `(`, the `:` and the closing `)` of a joined string sit. */
  lemma JoinLayout(cls: string, code: string, msg: string, rest: string, s: string)
    requires '(' !in cls && ':' !in code
    requires rest == code + [':'] + (" " + msg + ")") && s == cls + ['('] + rest
    ensures IndexOf(s, '(') == Some(|cls|) && s[..|cls|] == cls && s[|cls| + 1..] == rest
    ensures IndexOf(rest, ':') == Some(|code|) && rest[..|code|] == code
    ensures |code| + 2 <= |rest| - 1 && rest[|code| + 1] == ' ' && rest[|rest| - 1] == ')'
    ensures rest[|code| + 2..|rest| - 1] == msg
  {
    var tail := " " + msg + ")";
    assert s[..|cls|] == cls && s[|cls| + 1..] == rest by {
      SplitAround(cls, '(', rest);
    }
    assert IndexOf(s, '(') == Some(|cls|) by {
      IndexOfAfterPrefix(cls, '(', rest);
    }
    assert IndexOf(rest, ':') == Some(|code|) && rest[..|code|] == code by {
      IndexOfAfterPrefix(code, ':', tail);
      SplitAround(code, ':', tail);
    }
    SplitTail(code, ':', msg);
  }

  /** Joining three parts in the string-form layout and splitting gives them back,
      provided the class name has no `(` and the code name no `:`. */
  lemma ParseJoin(cls: string, code: string, msg: string)
    requires '(' !in cls && ':' !in code
    ensures ParseStr(cls + "(" + code + ": " + msg + ")") == Some((cls, code, msg))
  {
    var rest := code + [':'] + (" " + msg + ")");
    var s := cls + ['('] + rest;
    assert cls + "(" + code + ": " + msg + ")" == s;
    JoinLayout(cls, code, msg, rest, s);
    ParseStrAt(s, |cls|, rest, |code|, cls, code, msg);
  }

  /** The string form is `ClassName(codeName: message)` and splits back into its three parts. */
  lemma StrRoundTrip(e: LaunchpadError)
    ensures ParseStr(e.Str()) == Some((e.ClassName(), e.Code().Name(), e.Message()))
  {
    ParseJoin(e.ClassName(), e.Code().Name(), e.Message());
  }
}
