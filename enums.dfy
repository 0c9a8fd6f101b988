/** The value types shared by every model: port directions, palette colours,
    scroll directions and RGB colours with channel scaling. */
module Enums {
  import opened Wrappers

  /** Direction of a MIDI port. */
  datatype Direction = Input | Output

  /** Palette colour codes that `led_all_on` sends. */
  datatype Color = Black | White | Red | Green {
    function Value(): int {
      match this
      case Black => 0
      case White => 3
      case Red => 5
      case Green => 17
    }
  }

  /** `Color(v)`: the colour whose code is `v`; Python raises ValueError when there is none. */
  function ColorOf(v: int): (c: Option<Color>)
    ensures c.Some? ==> c.value.Value() == v
    ensures c.None? ==> forall k: Color :: k.Value() != v
  {
    if v == 0 then Some(Black)
    else if v == 3 then Some(White)
    else if v == 5 then Some(Red)
    else if v == 17 then Some(Green)
    else None
  }

  /** Every colour is found again from its code, so the codes are pairwise distinct. */
  lemma ColorRoundTrip(c: Color)
    ensures ColorOf(c.Value()) == Some(c)
  {
  }

  /** Scroll directions of `write_string`. */
  datatype Scroll = NoScroll | ScrollLeft | ScrollRight {
    function Value(): int {
      match this
      case NoScroll => 0
      case ScrollLeft => -1
      case ScrollRight => 1
    }
  }

  /** `Scroll(v)`: the direction whose code is `v`, if any. */
  function ScrollOf(v: int): (s: Option<Scroll>)
    ensures s.Some? ==> s.value.Value() == v
    ensures s.None? ==> forall k: Scroll :: k.Value() != v
  {
    if v == 0 then Some(NoScroll)
    else if v == -1 then Some(ScrollLeft)
    else if v == 1 then Some(ScrollRight)
    else None
  }

  lemma ScrollRoundTrip(s: Scroll)
    ensures ScrollOf(s.Value()) == Some(s)
  {
  }

  /** An RGB colour; every channel defaults to 0, so `RGB()` is black. */
  datatype RGB = RGB(red: int := 0, green: int := 0, blue: int := 0) {

    /** Map every channel from 0..255 linearly onto minimum..maximum. */
    function Scale(minimum: int, maximum: int): (r: RGB)
      ensures minimum <= maximum && 0 <= red <= 255 ==> minimum <= r.red <= maximum
      ensures minimum <= maximum && 0 <= green <= 255 ==> minimum <= r.green <= maximum
      ensures minimum <= maximum && 0 <= blue <= 255 ==> minimum <= r.blue <= maximum
    {
      RGB(ScaleChannel(red, minimum, maximum),
          ScaleChannel(green, minimum, maximum),
          ScaleChannel(blue, minimum, maximum))
    }
  }

  /** Python's `int(a / b)` for a positive divisor: the exact quotient truncated toward zero. */
  function TruncDiv(a: int, b: int): int
    requires b > 0
  {
    if a >= 0 then a / b else -((-a) / b)
  }

  /** `int((c / 255.0) * (maximum - minimum) + minimum)`, computed on exact rationals:
      the sum equals (c * (maximum - minimum) + 255 * minimum) / 255. A channel in
      0..255 lands in [minimum, maximum]. */
  function ScaleChannel(c: int, minimum: int, maximum: int): (r: int)
    ensures minimum <= maximum && 0 <= c <= 255 ==> minimum <= r <= maximum
  {
    if minimum <= maximum && 0 <= c <= 255 then
      NumeratorInRange(c, minimum, maximum);
      TruncDiv(c * (maximum - minimum) + 255 * minimum, 255)
    else
      TruncDiv(c * (maximum - minimum) + 255 * minimum, 255)
  }

  lemma NumeratorInRange(c: int, minimum: int, maximum: int)
    requires 0 <= c <= 255 && minimum <= maximum
    ensures minimum <= TruncDiv(c * (maximum - minimum) + 255 * minimum, 255) <= maximum
  {
    var d := maximum - minimum;
    MulMonotone(0, c, d);
    MulMonotone(c, 255, d);
    TruncDivMonotone(minimum * 255, c * d + 255 * minimum);
    TruncDivMonotone(c * d + 255 * minimum, maximum * 255);
    TruncDivExact(minimum);
    TruncDivExact(maximum);
  }

  lemma TruncDivMonotone(a1: int, a2: int)
    requires a1 <= a2
    ensures TruncDiv(a1, 255) <= TruncDiv(a2, 255)
  {
  }

  lemma MulMonotone(x: int, y: int, k: int)
    requires x <= y && k >= 0
    ensures x * k <= y * k
  {
  }

  lemma TruncDivExact(k: int)
    ensures TruncDiv(k * 255, 255) == k
  {
  }

  /** Both ends of the input range map to both ends of the output range. */
  lemma ScaleEndpoints(minimum: int, maximum: int)
    ensures ScaleChannel(0, minimum, maximum) == minimum
    ensures ScaleChannel(255, minimum, maximum) == maximum
  {
    TruncDivExact(minimum);
    assert 255 * (maximum - minimum) + 255 * minimum == maximum * 255;
    TruncDivExact(maximum);
  }

  /** A larger channel never scales to a smaller one. */
  lemma ScaleMonotone(c1: int, c2: int, minimum: int, maximum: int)
    requires c1 <= c2 && minimum <= maximum
    ensures ScaleChannel(c1, minimum, maximum) <= ScaleChannel(c2, minimum, maximum)
  {
    MulMonotone(c1, c2, maximum - minimum);
    TruncDivMonotone(c1 * (maximum - minimum) + 255 * minimum,
                     c2 * (maximum - minimum) + 255 * minimum);
  }
}
