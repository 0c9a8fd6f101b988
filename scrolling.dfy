/** The schedule of `write_char` calls that `write_string` makes: which
    character is drawn at which lateral offset, step by step, for the three
    scroll directions. Timing between steps is not modelled. */
module Scrolling {
  import opened Enums
  import opened Glyphs

  /** One `write_char(ch, color, offset)` call. */
  datatype Draw = Draw(ch: char, offset: int)

  /** The even-indexed call of step `n`. */
  function EvenDraw(t: string, n: nat): (d: Draw)
    requires |t| > 0
    ensures -7 <= d.offset <= 8 && d.ch in t
  {
    Draw(t[Limit((n / 16) * 2, 0, |t| - 1)], 8 - n % 16)
  }

  /** The odd-indexed call of step `n`. */
  function OddDraw(t: string, n: nat): (d: Draw)
    requires |t| > 0 && n > 7
    ensures -7 <= d.offset <= 8 && d.ch in t
  {
    Draw(t[Limit(((n - 8) / 16) * 2 + 1, 0, |t| - 1)], 8 - (n - 8) % 16)
  }

  /** The calls of one step `n` of a scrolling loop over the padded text `t`:
      an even-indexed character while `n <= 8 * |t|`, then an odd-indexed one
      once `n > 7`. Both index computations are clamped into the text. */
  function StepDraws(t: string, n: nat): (r: seq<Draw>)
    requires |t| > 0
    ensures |r| == (if n <= |t| * 8 then 1 else 0) + (if n > 7 then 1 else 0)
    ensures forall d :: d in r ==> -7 <= d.offset <= 8 && d.ch in t
  {
    (if n <= |t| * 8 then [EvenDraw(t, n)] else [])
    + (if n > 7 then [OddDraw(t, n)] else [])
  }

  /** Steps `0, 1, ..., k - 1`, in that order. */
  function Ascending(t: string, k: nat): (r: seq<Draw>)
    requires |t| > 0
    ensures forall d :: d in r ==> -7 <= d.offset <= 8 && d.ch in t
  {
    if k == 0 then [] else Ascending(t, k - 1) + StepDraws(t, k - 1)
  }

  /** Steps `hi, hi - 1, ..., lo + 1`, in that order (`range(hi, lo, -1)`). */
  function Descending(t: string, hi: nat, lo: nat): (r: seq<Draw>)
    requires |t| > 0
    ensures forall d :: d in r ==> -7 <= d.offset <= 8 && d.ch in t
    decreases hi - lo
  {
    if hi <= lo then [] else Descending(t, hi, lo + 1) + StepDraws(t, lo + 1)
  }

  /** The padded text of a left scroll: one trailing blank. */
  function LeftText(s: string): string {
    s + " "
  }

  /** The padded text of a right scroll: a blank on each side. */
  function RightText(s: string): string {
    " " + s + " "
  }

  /** Left scroll: steps 0 .. 8 * (|t| + 1) - 1 over `t = s + " "`. */
  function LeftSchedule(s: string): seq<Draw> {
    Ascending(LeftText(s), (|LeftText(s)| + 1) * 8)
  }

  /** Right scroll: steps 8 * (|t| + 1) - 7 down to 1 over `t = " " + s + " "`. */
  function RightSchedule(s: string): seq<Draw> {
    Descending(RightText(s), (|RightText(s)| + 1) * 8 - 7, 0)
  }

  /** `k` copies of one call. */
  function Repeat(d: Draw, k: nat): (r: seq<Draw>)
    ensures |r| == k && forall i :: 0 <= i < k ==> r[i] == d
  {
    if k == 0 then [] else Repeat(d, k - 1) + [d]
  }

  /** No scroll: every character drawn four times in place. */
  function StillSchedule(s: string): (r: seq<Draw>)
    ensures |r| == 4 * |s|
    ensures forall i :: 0 <= i < |r| ==> r[i] == Draw(s[i / 4], 0)
  {
    if s == [] then []
    else
      var prefix := s[..|s| - 1];
      assert forall i :: 0 <= i < 4 * |prefix| ==> prefix[i / 4] == s[i / 4];
      StillSchedule(prefix) + Repeat(Draw(s[|s| - 1], 0), 4)
  }

  /** The calls `write_string(s, color, scroll)` makes, in order. */
  function Schedule(s: string, scroll: Scroll): seq<Draw> {
    match scroll
    case ScrollLeft => LeftSchedule(s)
    case ScrollRight => RightSchedule(s)
    case NoScroll => StillSchedule(s)
  }

  function AscendingLength(t: string, k: nat): nat {
    (if k <= |t| * 8 + 1 then k else |t| * 8 + 1) + (if k <= 8 then 0 else k - 8)
  }

  lemma {:induction false} AscendingSize(t: string, k: nat)
    requires |t| > 0
    ensures |Ascending(t, k)| == AscendingLength(t, k)
  {
    if k > 0 {
      AscendingSize(t, k - 1);
    }
  }

  function Min(a: int, b: int): int {
    if a < b then a else b
  }

  function Max(a: int, b: int): int {
    if a < b then b else a
  }

  lemma {:induction false} DescendingSize(t: string, hi: nat, lo: nat)
    requires |t| > 0 && lo <= hi && hi <= |t| * 8 + 1
    ensures |Descending(t, hi, lo)| == (Min(hi, |t| * 8) - Min(lo, |t| * 8)) + (Max(hi, 7) - Max(lo, 7))
    decreases hi - lo
  {
    if lo < hi {
      DescendingSize(t, hi, lo + 1);
    }
  }

  /** A left scroll makes `16 * |s| + 17` calls and a right scroll `16 * |s| + 26`. */
  lemma ScheduleSizes(s: string)
    ensures |LeftSchedule(s)| == 16 * |s| + 17
    ensures |RightSchedule(s)| == 16 * |s| + 26
    ensures |StillSchedule(s)| == 4 * |s|
  {
    AscendingSize(LeftText(s), (|LeftText(s)| + 1) * 8);
    DescendingSize(RightText(s), (|RightText(s)| + 1) * 8 - 7, 0);
  }

  lemma {:induction false} AscendingHasStep(t: string, k: nat, n: nat, d: Draw)
    requires |t| > 0 && n < k && d in StepDraws(t, n)
    ensures d in Ascending(t, k)
  {
    if n < k - 1 {
      AscendingHasStep(t, k - 1, n, d);
    }
  }

  lemma {:induction false} DescendingHasStep(t: string, hi: nat, lo: nat, n: nat, d: Draw)
    requires |t| > 0 && lo < n <= hi && d in StepDraws(t, n)
    ensures d in Descending(t, hi, lo)
    decreases hi - lo
  {
    if lo + 1 < n {
      DescendingHasStep(t, hi, lo + 1, n, d);
    }
  }

  /** The step at which character `i` of the padded text sits exactly on the
      matrix (offset 0): `16m + 8` for `i = 2m`, `16m + 16` for `i = 2m + 1`;
      in both cases `8i + 8`. */
  lemma StepShowingCharacter(t: string, i: nat)
    requires i < |t|
    ensures Draw(t[i], 0) in StepDraws(t, 8 * i + 8)
  {
    var n := 8 * i + 8;
    if i % 2 == 0 {
      assert n / 16 * 2 == i && n % 16 == 8;
      assert EvenDraw(t, n) == Draw(t[i], 0);
    } else {
      assert (n - 8) / 16 * 2 + 1 == i && (n - 8) % 16 == 8;
      assert OddDraw(t, n) == Draw(t[i], 0);
    }
  }

  /** A left scroll passes every character of its padded text across the whole
      matrix: each one is drawn at offset 0 at some step. */
  lemma LeftScrollShowsEveryCharacter(s: string, i: nat)
    requires i < |LeftText(s)|
    ensures Draw(LeftText(s)[i], 0) in LeftSchedule(s)
  {
    var t := LeftText(s);
    StepShowingCharacter(t, i);
    AscendingHasStep(t, (|t| + 1) * 8, 8 * i + 8, Draw(t[i], 0));
  }

  /** So does a right scroll. */
  lemma RightScrollShowsEveryCharacter(s: string, i: nat)
    requires i < |RightText(s)|
    ensures Draw(RightText(s)[i], 0) in RightSchedule(s)
  {
    var t := RightText(s);
    StepShowingCharacter(t, i);
    DescendingHasStep(t, (|t| + 1) * 8 - 7, 0, 8 * i + 8, Draw(t[i], 0));
  }
}
