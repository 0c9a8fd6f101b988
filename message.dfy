/** A button event: what happened (press, release or click), where, how hard,
    and how long a click took. */
module Messages {

  datatype Action = Press | Release | Click {
    /** The member value. */
    function Value(): string {
      match this
      case Press => "press"
      case Release => "release"
      case Click => "click"
    }
  }

  /** The `Message` dataclass; `diff` is the time since the previous event. */
  datatype Message = Message(action: Action, code: int, n: int, intensity: int := 0, diff: real := 0.0) {
    /** How long the button was held: only a click has a duration. */
    function Duration(): (d: real)
      ensures d != 0.0 ==> action == Click
      ensures action == Click ==> d == diff
    {
      if action == Click then diff else 0.0
    }
  }

  /** A message built with only the required fields has intensity 0, no time
      difference and therefore no duration. */
  lemma DefaultsHaveNoDuration(action: Action, code: int, n: int)
    ensures Message(action, code, n).intensity == 0
    ensures Message(action, code, n).Duration() == 0.0
  {
  }
}
