/**
 The display side of the SHTC3 terminal monitor: the bounded history `Data`
 (four newest-first series of milli-unit readings), the per-tick step of `show`
 (take at most one pair from the channel, push it to the front of each series,
 truncate, project for rendering), and `show`'s loop over a run of ticks.
 */
module Monitor {
  import opened Deque

  datatype Option<T> = None | Some(value: T)

  /** Rust's `i32`, the element type of every series (milli-degrees or milli-percent). */
  newtype i32 = x: int | -0x8000_0000 <= x < 0x8000_0000

  /** One sensor reading as the driver reports it in fixed point. */
  datatype Measurement = Measurement(millidegreesCelsius: i32, millipercent: i32)

  /** What one polling cycle sends: a normal-mode and a low-power-mode reading. */
  datatype Pair = Pair(normal: Measurement, lowpwr: Measurement)

  /** The four series kept by `Data`. */
  datatype SeriesName = TempNormal | TempLowpwr | HumiNormal | HumiLowpwr

  /** `DATA_CAPACITY`: the number of points each series keeps. */
  const DataCapacity: nat := 100

  /** The integer that a received pair contributes to one series. */
  function Sample(p: Pair, c: SeriesName): i32
  {
    match c
    case TempNormal => p.normal.millidegreesCelsius
    case TempLowpwr => p.lowpwr.millidegreesCelsius
    case HumiNormal => p.normal.millipercent
    case HumiLowpwr => p.lowpwr.millipercent
  }

  /** What one tick pushes to the front of series `c`: nothing, or one value. */
  function Arrived(received: Option<Pair>, c: SeriesName): seq<i32>
  {
    if received.Some? then [Sample(received.value, c)] else []
  }

  /** The chart points of the four series handed to the renderer on one tick. */
  datatype Frame = Frame(tempNormal: seq<Point<i32>>, tempLowpwr: seq<Point<i32>>,
                         humiNormal: seq<Point<i32>>, humiLowpwr: seq<Point<i32>>)
  {
    function Points(c: SeriesName): seq<Point<i32>>
    {
      match c
      case TempNormal => tempNormal
      case TempLowpwr => tempLowpwr
      case HumiNormal => humiNormal
      case HumiLowpwr => humiLowpwr
    }
  }

  // ---------------------------------------------------------------------------
  // Specification: what the buffers hold after a run of ticks
  // ---------------------------------------------------------------------------

  /** The pairs taken from the channel over a run of ticks, in the order they were taken. */
  function Received(ticks: seq<Option<Pair>>): (r: seq<Pair>)
    ensures |r| <= |ticks|
  {
    if ticks == [] then []
    else Received(ticks[..|ticks| - 1]) + (var last := ticks[|ticks| - 1]; if last.Some? then [last.value] else [])
  }

  /** A tick that receives nothing adds nothing; a tick that receives `p` adds `p` last. */
  lemma ReceivedStep(ticks: seq<Option<Pair>>, k: nat)
    requires k < |ticks|
    ensures Received(ticks[..k + 1]) == Received(ticks[..k]) + (if ticks[k].Some? then [ticks[k].value] else [])
  {
    assert ticks[..k + 1][..k] == ticks[..k];
  }

  /** When every tick receives a pair, the received pairs are exactly those
      pairs, in the order the ticks received them. */
  lemma {:induction false} ReceivedEveryTick(ticks: seq<Option<Pair>>, pairs: seq<Pair>)
    requires |ticks| == |pairs|
    requires forall i :: 0 <= i < |ticks| ==> ticks[i] == Some(pairs[i])
    ensures Received(ticks) == pairs
  {
    if ticks != [] {
      var n := |ticks| - 1;
      ReceivedEveryTick(ticks[..n], pairs[..n]);
      assert pairs == pairs[..n] + [pairs[n]];
    }
  }

  /** Every value of series `c` ever received, newest first. */
  function Newest(pairs: seq<Pair>, c: SeriesName): (r: seq<i32>)
    ensures |r| == |pairs|
    ensures forall i :: 0 <= i < |pairs| ==> r[i] == Sample(pairs[|pairs| - 1 - i], c)
  {
    if pairs == [] then []
    else [Sample(pairs[|pairs| - 1], c)] + Newest(pairs[..|pairs| - 1], c)
  }

  /** What series `c` should hold once `pairs` have been received: the `capacity` newest values. */
  function Window(pairs: seq<Pair>, capacity: nat, c: SeriesName): seq<i32>
  {
    Truncate(Newest(pairs, c), capacity)
  }

  /**
   After `pairs` have been received, a series holds the `min(|pairs|, capacity)`
   most recent values, newest first; so all four series have the same length.
   */
  lemma WindowContents(pairs: seq<Pair>, capacity: nat, c: SeriesName)
    ensures |Window(pairs, capacity, c)| == if |pairs| <= capacity then |pairs| else capacity
    ensures forall i :: 0 <= i < |Window(pairs, capacity, c)| ==>
              Window(pairs, capacity, c)[i] == Sample(pairs[|pairs| - 1 - i], c)
  {
  }

  /** Receiving one more pair: push its value to the front, then truncate. */
  lemma WindowPush(pairs: seq<Pair>, p: Pair, capacity: nat, c: SeriesName)
    ensures Window(pairs + [p], capacity, c) == Truncate([Sample(p, c)] + Window(pairs, capacity, c), capacity)
  {
  }

  /** The series after one more tick follow from the series before it. */
  lemma WindowTick(ticks: seq<Option<Pair>>, k: nat, capacity: nat, c: SeriesName)
    requires k < |ticks|
    ensures Window(Received(ticks[..k + 1]), capacity, c)
         == Truncate(Arrived(ticks[k], c) + Window(Received(ticks[..k]), capacity, c), capacity)
  {
    ReceivedStep(ticks, k);
    var before := Received(ticks[..k]);
    if ticks[k].Some? {
      WindowPush(before, ticks[k].value, capacity, c);
    } else {
      assert Received(ticks[..k + 1]) == before;
      TruncateIdempotent(Newest(before, c), capacity);
    }
  }

  /** The frame rendered once `pairs` have been received into buffers of `capacity`. */
  function Displayed(pairs: seq<Pair>, capacity: nat): Frame
  {
    Frame(Plot(Window(pairs, capacity, TempNormal)), Plot(Window(pairs, capacity, TempLowpwr)),
          Plot(Window(pairs, capacity, HumiNormal)), Plot(Window(pairs, capacity, HumiLowpwr)))
  }

  /** After `pairs` have been received, every chart of the rendered frame has `min(|pairs|, capacity)` points. */
  lemma DisplayedLength(pairs: seq<Pair>, capacity: nat, c: SeriesName)
    ensures |Displayed(pairs, capacity).Points(c)| == (if |pairs| <= capacity then |pairs| else capacity)
  {
  }

  /**
   On a rendered frame with `n = min(|pairs|, capacity)` points per chart,
   point `i` sits at x position `i` and carries the value of pair `|pairs| - n + i`:
   the oldest retained value is drawn first, the newest last.
   */
  lemma DisplayedPoints(pairs: seq<Pair>, capacity: nat, c: SeriesName, i: nat)
    requires i < (if |pairs| <= capacity then |pairs| else capacity)
    ensures |Displayed(pairs, capacity).Points(c)| == (if |pairs| <= capacity then |pairs| else capacity)
    ensures var n := |Displayed(pairs, capacity).Points(c)|;
            Displayed(pairs, capacity).Points(c)[i] == Point(i, Sample(pairs[|pairs| - n + i], c))
  {
    // Dafny also proves this unaided, but only near its resource limit; these steps keep it cheap on every seed.
    WindowContents(pairs, capacity, c);
    var w := Window(pairs, capacity, c);
    assert Displayed(pairs, capacity).Points(c) == Plot(w);
    assert w[|w| - 1 - i] == Sample(pairs[|pairs| - 1 - (|w| - 1 - i)], c);
  }

  /** The worked example: capacity 3, temperatures 10, 20, 30, 40 received in turn. */
  lemma CapacityThreeExample(pairs: seq<Pair>)
    requires |pairs| == 4
    requires forall i :: 0 <= i < 4 ==> pairs[i].normal.millidegreesCelsius == 10 * (i as i32 + 1)
    ensures Window(pairs, 3, TempNormal) == [40, 30, 20]
    ensures Displayed(pairs, 3).tempNormal == [Point(0, 20), Point(1, 30), Point(2, 40)]
  {
  }

  // ---------------------------------------------------------------------------
  // Implementation: the buffers as the program keeps them
  // ---------------------------------------------------------------------------

  /** `Data`: the four bounded, newest-first series and their shared capacity. */
  class Data {
    var capacity: nat
    var tempNormal: seq<i32>
    var tempLowpwr: seq<i32>
    var humiNormal: seq<i32>
    var humiLowpwr: seq<i32>

    function Series(c: SeriesName): seq<i32>
      reads this
    {
      match c
      case TempNormal => tempNormal
      case TempLowpwr => tempLowpwr
      case HumiNormal => humiNormal
      case HumiLowpwr => humiLowpwr
    }

    /** The four series have the same length. */
    predicate Balanced()
      reads this
    {
      |tempLowpwr| == |tempNormal| && |humiNormal| == |tempNormal| && |humiLowpwr| == |tempNormal|
    }

    /** No series holds more than `bound` values. */
    predicate Bounded(bound: nat)
      reads this
    {
      forall c :: |Series(c)| <= bound
    }

    /** `Data::new`: the given capacity and four empty series. */
    constructor (capacity: nat)
      ensures this.capacity == capacity
      ensures forall c :: Series(c) == []
      ensures Balanced() && Bounded(capacity)
    {
      this.capacity := capacity;
      tempNormal, tempLowpwr, humiNormal, humiLowpwr := [], [], [], [];
    }

    /** The four `push_front`s for one received pair (the body of the receive loop in `show`). */
    method Receive(p: Pair)
      modifies this
      ensures capacity == old(capacity)
      ensures forall c :: Series(c) == [Sample(p, c)] + old(Series(c))
      ensures old(Balanced()) ==> Balanced()
      ensures old(Bounded(capacity)) ==> Bounded(capacity + 1)
    {
      tempNormal := [p.normal.millidegreesCelsius] + tempNormal;
      tempLowpwr := [p.lowpwr.millidegreesCelsius] + tempLowpwr;
      humiNormal := [p.normal.millipercent] + humiNormal;
      humiLowpwr := [p.lowpwr.millipercent] + humiLowpwr;
      assert forall c :: |Series(c)| == |old(Series(c))| + 1;
    }

    /** `Data::truncate`: cut every series to at most `capacity` values, keeping the newest. */
    method Truncate()
      modifies this
      ensures capacity == old(capacity)
      ensures forall c :: Series(c) == Deque.Truncate(old(Series(c)), capacity)
      ensures Bounded(capacity)
      ensures old(Balanced()) ==> Balanced()
      ensures old(Bounded(capacity)) ==> unchanged(this)
    {
      assert Bounded(capacity) ==>
               (|Series(TempNormal)| <= capacity && |Series(TempLowpwr)| <= capacity
                && |Series(HumiNormal)| <= capacity && |Series(HumiLowpwr)| <= capacity);
      tempNormal := Deque.Truncate(tempNormal, capacity);
      tempLowpwr := Deque.Truncate(tempLowpwr, capacity);
      humiNormal := Deque.Truncate(humiNormal, capacity);
      humiLowpwr := Deque.Truncate(humiLowpwr, capacity);
    }

    /** The integer part of `render`: every series reversed to oldest-first and numbered from 0. */
    function Projection(): (f: Frame)
      reads this
      ensures forall c :: |f.Points(c)| == |Series(c)|
    {
      Frame(Plot(tempNormal), Plot(tempLowpwr), Plot(humiNormal), Plot(humiLowpwr))
    }

    /** The series hold exactly what the specification says they hold once `pairs` have been received. */
    lemma ProjectionDisplays(pairs: seq<Pair>)
      requires forall c :: Series(c) == Window(pairs, capacity, c)
      ensures Projection() == Displayed(pairs, capacity)
    {
      // Kept for solver stability: naming the four series makes the proof several times cheaper.
      assert tempNormal == Series(TempNormal) && tempLowpwr == Series(TempLowpwr);
      assert humiNormal == Series(HumiNormal) && humiLowpwr == Series(HumiLowpwr);
    }

    /**
     One pass of `show`'s loop: receive at most one pair, truncate, and return the
     frame handed to the renderer.
     */
    method Tick(received: Option<Pair>) returns (frame: Frame)
      modifies this
      ensures capacity == old(capacity)
      ensures forall c :: Series(c) == Deque.Truncate(Arrived(received, c) + old(Series(c)), capacity)
      ensures forall c :: |Series(c)| <= |old(Series(c))| + 1
      ensures Bounded(capacity)
      ensures old(Balanced()) ==> Balanced()
      ensures frame == Projection()
    {
      if received.Some? {
        Receive(received.value);
      }
      assert forall c :: Series(c) == Arrived(received, c) + old(Series(c));
      Truncate();
      frame := Projection();
    }
  }

  /** The frames rendered on ticks `0..k-1` are what the specification says they are. */
  ghost predicate Shown(ticks: seq<Option<Pair>>, frames: seq<Frame>)
  {
    |frames| <= |ticks| &&
    forall j :: 0 <= j < |frames| ==> frames[j] == Displayed(Received(ticks[..j + 1]), DataCapacity)
  }

  /** Rendering one more correct frame keeps the rendered run correct. */
  lemma ShownExtend(ticks: seq<Option<Pair>>, frames: seq<Frame>, frame: Frame)
    requires Shown(ticks, frames) && |frames| < |ticks|
    requires frame == Displayed(Received(ticks[..|frames| + 1]), DataCapacity)
    ensures Shown(ticks, frames + [frame])
  {
    // Kept for solver stability: without it the proof costs about half the resource limit.
    var extended := frames + [frame];
    forall j | 0 <= j < |extended|
      ensures extended[j] == Displayed(Received(ticks[..j + 1]), DataCapacity)
    {
      if j < |frames| {
        assert extended[j] == frames[j];
      }
    }
  }

  /**
   `show` over a run of ticks: `ticks[k]` is what `try_recv` returned on tick `k`.
   The frame rendered on tick `k` is the one the specification gives for the pairs
   received on ticks `0..k`.
   */
  method Show(ticks: seq<Option<Pair>>) returns (frames: seq<Frame>)
    ensures |frames| == |ticks|
    ensures forall k :: 0 <= k < |ticks| ==> frames[k] == Displayed(Received(ticks[..k + 1]), DataCapacity)
  {
    var data := new Data(DataCapacity);
    frames := [];
    var k := 0;
    while k < |ticks|
      invariant 0 <= k <= |ticks|
      invariant data.capacity == DataCapacity
      invariant forall c :: data.Series(c) == Window(Received(ticks[..k]), DataCapacity, c)
      invariant |frames| == k
      invariant Shown(ticks, frames)
    {
      var frame := data.Tick(ticks[k]);
      assert (forall c :: data.Series(c) == Window(Received(ticks[..k + 1]), DataCapacity, c))
          && frame == Displayed(Received(ticks[..k + 1]), DataCapacity) by {
        forall c
          ensures data.Series(c) == Window(Received(ticks[..k + 1]), DataCapacity, c)
        {
          WindowTick(ticks, k, DataCapacity, c);
        }
        data.ProjectionDisplays(Received(ticks[..k + 1]));
      }
      ShownExtend(ticks, frames, frame);
      frames := frames + [frame];
      k := k + 1;
    }
  }
}
