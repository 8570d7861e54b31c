/**
 The `VecDeque` operations the monitor uses, stated generically on values:
 `truncate`, `push_front` (prepending, `[x] + s`), and the render-side
 `iter().rev().enumerate()` that turns a newest-first series into chart points.
 */
module Deque {

  /** `VecDeque::truncate`: keep the first `len` elements, or everything when there are fewer. */
  function Truncate<T>(s: seq<T>, len: nat): (r: seq<T>)
    ensures |r| == if |s| <= len then |s| else len
    ensures r == s[..|r|]
  {
    if |s| <= len then s else s[..len]
  }

  /** A series that already fits is left untouched. */
  lemma TruncateWithin<T>(s: seq<T>, len: nat)
    requires |s| <= len
    ensures Truncate(s, len) == s
  {
  }

  /** Truncating twice to the same bound changes nothing the second time. */
  lemma TruncateIdempotent<T>(s: seq<T>, len: nat)
    ensures Truncate(Truncate(s, len), len) == Truncate(s, len)
  {
  }

  /**
   Pushing to the front of an already-truncated series and truncating again gives
   the same as if the series had never been cut: truncating after every push loses
   nothing that a single truncation at the end would keep.
   */
  lemma TruncatePushFront<T>(x: T, s: seq<T>, len: nat)
    ensures Truncate([x] + Truncate(s, len), len) == Truncate([x] + s, len)
  {
  }

  /** `Iterator::rev` on a deque: the same elements, last first. */
  function Reverse<T>(s: seq<T>): (r: seq<T>)
    ensures |r| == |s|
    ensures forall i :: 0 <= i < |s| ==> r[i] == s[|s| - 1 - i]
  {
    if s == [] then [] else Reverse(s[1..]) + [s[0]]
  }

  /** Reversing twice gives back the original series. */
  lemma ReverseReverse<T>(s: seq<T>)
    ensures Reverse(Reverse(s)) == s
  {
  }

  /** One point of a chart: its x position and the integer value plotted there. */
  datatype Point<T> = Point(index: nat, value: T)

  /** `Iterator::enumerate`, counting from `from` (the source always starts at 0). */
  function Enumerate<T>(s: seq<T>, from: nat): (r: seq<Point<T>>)
    ensures |r| == |s|
    ensures forall i :: 0 <= i < |s| ==> r[i] == Point(from + i, s[i])
  {
    if s == [] then [] else [Point(from, s[0])] + Enumerate(s[1..], from + 1)
  }

  /** The points drawn for one newest-first series: `iter().rev().enumerate()`. */
  function Plot<T>(s: seq<T>): (r: seq<Point<T>>)
    ensures |r| == |s|
    ensures forall i :: 0 <= i < |s| ==> r[i] == Point(i, s[|s| - 1 - i])
  {
    Enumerate(Reverse(s), 0)
  }

  /**
   A value pushed to the front of a series that is not truncated afterwards
   shows up as one new point at the right end of its chart, and the points
   already drawn keep their positions. In the monitor this holds while the
   series is below capacity; once it is full, the truncate drops the oldest
   value and every point moves one position to the left.
   */
  lemma PlotPushFront<T>(x: T, s: seq<T>)
    ensures Plot([x] + s) == Plot(s) + [Point(|s|, x)]
  {
  }

  /** The values carried by a run of chart points, in order. */
  function Values<T>(pts: seq<Point<T>>): (r: seq<T>)
    ensures |r| == |pts|
    ensures forall i :: 0 <= i < |pts| ==> r[i] == pts[i].value
  {
    if pts == [] then [] else [pts[0].value] + Values(pts[1..])
  }

  /** Reading a chart's values back and reversing them recovers the series exactly. */
  lemma PlotValues<T>(s: seq<T>)
    ensures Reverse(Values(Plot(s))) == s
  {
  }
}
