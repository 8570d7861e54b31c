# SHTC3 terminal monitor: the bounded display history

The `monitor-shtc3` example polls an SHTC3 temperature/humidity sensor and draws
live charts in a terminal. Its only logic of its own is on the display side:

- `Data` keeps a fixed `capacity` and four `VecDeque<i32>` series, newest value
  first: temperature and humidity (in milli-degrees Celsius and milli-percent),
  each measured in normal and in low-power mode. `Data::new` builds it empty;
  `Data::truncate` cuts every series to at most `capacity` values.
- Each pass of `show`'s loop takes **at most one** pair of measurements from the
  channel (`try_recv` returns an `Option`), `push_front`s its four integers, one
  per series, truncates once, and renders.
- `render` turns each series into chart points with `iter().rev().enumerate()`:
  oldest value first, at x positions `0 .. len-1`.

The model has two modules.

- `Deque` (`deque.dfy`) states the deque operations on values: `Truncate`
  (`VecDeque::truncate`), `Reverse` and `Enumerate` (the iterator adaptors) and
  `Plot`, their composition. It proves these facts about the deque: a series
  that fits is untouched, truncation is idempotent, truncating after each push
  keeps what one truncation at the end would keep, below capacity a push shows up
  as one new point at the right end of the chart, and a chart can be read back into its
  series.
- `Monitor` (`monitor.dfy`) holds the data model (`Measurement`, `Pair`,
  `SeriesName`), the class `Data` and its methods, and `Show`. The specification
  functions `Received`, `Newest`, `Window` and `Displayed` say what the buffers
  hold and what is drawn once a run of ticks has been seen. `Data.Tick` and `Show`
  are proved against them.

`Show` models `show`'s endless loop over a finite run of ticks. `ticks[k]` is what
`try_recv` returned on tick `k`. The result is the list of frames handed to the
renderer, one per tick.

The comment on `show`'s receive loop (examples/monitor-shtc3.rs:62) says it
drains any data into the buffer. The `for` at line 63 runs over what `try_recv`
returns, which is an `Option`, so each tick takes at most one pair. The model
follows the code. Because the bound is applied only by the truncate at line 74,
a series holds `capacity + 1` values between the pushes (lines 64-71) and that
truncate. `Data.Receive` states that bound.

## Model

| member | source | states |
|---|---|---|
| `Deque.Truncate` | examples/monitor-shtc3.rs:117-122 | the result is the prefix of the series of length `min(len, capacity)`, in the original order |
| `Deque.TruncateWithin` | examples/monitor-shtc3.rs:117-122 | a series already within capacity is left untouched |
| `Deque.TruncateIdempotent` | examples/monitor-shtc3.rs:117-122 | truncating a second time changes nothing |
| `Deque.TruncatePushFront` | examples/monitor-shtc3.rs:63-74 | push-then-truncate on a truncated series equals push-then-truncate on the uncut series |
| `Deque.Reverse` | examples/monitor-shtc3.rs:177-179 | same length; element `i` is element `len-1-i` of the input |
| `Deque.ReverseReverse` | examples/monitor-shtc3.rs:177-179 | reversing twice gives back the series |
| `Deque.Enumerate` | examples/monitor-shtc3.rs:180-181 | same length; point `i` carries index `from + i` and element `i` |
| `Deque.Plot` | examples/monitor-shtc3.rs:177-182 | one point per value; point `i` is at x position `i` and carries deque element `len-1-i`, so the oldest value comes first |
| `Deque.PlotPushFront` | examples/monitor-shtc3.rs:177-182 | pushing a value to the front of an uncut series adds one point at the right end and leaves the others where they were (in the monitor this holds while the series is below capacity) |
| `Deque.PlotValues` | examples/monitor-shtc3.rs:177-182 | the values of the points, reversed, are exactly the series: nothing is lost or reordered |
| `Monitor.Received` | examples/monitor-shtc3.rs:63 | a run of ticks takes at most one pair per tick |
| `Monitor.ReceivedStep` | examples/monitor-shtc3.rs:63 | a tick adds the pair it received, or nothing, after the pairs taken before |
| `Monitor.ReceivedEveryTick` | examples/monitor-shtc3.rs:61-72 | when every tick receives a pair, the received pairs are exactly those pairs, in the order the ticks received them |
| `Monitor.Newest` | examples/monitor-shtc3.rs:63-72 | every received value of a series, newest first: element `i` comes from pair `len-1-i` |
| `Monitor.WindowContents` | examples/monitor-shtc3.rs:61-74 | after `N` received pairs a series holds the `min(N, capacity)` most recent values, newest first; the length does not depend on the series, so all four are equally long |
| `Monitor.WindowPush` | examples/monitor-shtc3.rs:63-74 | receiving one more pair is a push to the front followed by a truncate |
| `Monitor.WindowTick` | examples/monitor-shtc3.rs:61-74 | a tick turns the window before it into the window after it by push-if-received, then truncate |
| `Monitor.DisplayedLength` | examples/monitor-shtc3.rs:175-202 | after `N` received pairs every chart has exactly `min(N, capacity)` points, for every run, including an empty one and capacity 0 |
| `Monitor.DisplayedPoints` | examples/monitor-shtc3.rs:175-202 | for each `i < n = min(N, capacity)`, point `i` of each chart is at x position `i` and carries the value of pair `N-n+i` |
| `Monitor.CapacityThreeExample` | examples/monitor-shtc3.rs:63-77 | with capacity 3 and temperatures 10, 20, 30, 40 the series is `[40, 30, 20]` and is drawn as `(0,20), (1,30), (2,40)` |
| `Monitor.Data.constructor` | examples/monitor-shtc3.rs:109-114 | the given capacity and four empty series |
| `Monitor.Data.Receive` | examples/monitor-shtc3.rs:63-72 | each series becomes `[v] + old` for its own value `v`; capacity unchanged; the four stay equally long; a series within capacity grows to at most `capacity + 1` |
| `Monitor.Data.Truncate` | examples/monitor-shtc3.rs:117-122 | each series becomes its truncation to `capacity`; every series is then within capacity; equal lengths are kept; capacity is unchanged; nothing changes when all series already fit |
| `Monitor.Data.Projection` | examples/monitor-shtc3.rs:175-202 | each chart has as many points as its series has values |
| `Monitor.Data.ProjectionDisplays` | examples/monitor-shtc3.rs:175-202 | when the series hold the window of a run of pairs, the projection is the frame the specification gives for that run |
| `Monitor.Data.Tick` | examples/monitor-shtc3.rs:61-75 | each series becomes the truncation of push-if-received; it grows by at most one; afterwards every series is within capacity and equal lengths are kept; the returned frame is the projection of the new state |
| `Monitor.Show` | examples/monitor-shtc3.rs:55-79 | one frame per tick, and the frame of tick `k` is the one the specification gives for the pairs received on ticks `0..k`, with capacity `DATA_CAPACITY` (100) |

## Left out

- The race in `main` between the Ctrl-C listener, `poll` and `show`, the async runtime and the sleeps. These are concurrency and timing.
- The key-reading loop on standard input that waits for Ctrl-C. This is blocking I/O.
- `poll`, the I2C device and the sensor driver's `measure`. Each `Pair` is taken as already measured, with its integers already converted to milli-units by the driver.
- The channel and `send`. Its output on each tick is a parameter: `ticks[k]` is the `Option` that `try_recv` returned.
- `Monitor.ReceivedEveryTick`: the order is the order in which the ticks received the pairs. That this is also the order in which `poll` sent them rests on the channel delivering first-in, first-out, which the model assumes and does not prove.
- Terminal raw mode, clearing the screen, the cursor, `show_chart` and the chart and layout construction in `render`. These are UI.
- The scaling `x as f64 / 1000.0`, the `f64` point coordinates and the axis bounds. These are floating point. The model keeps integer values and `nat` x positions.
- `unwrap()` panics on driver and terminal errors. These are failure paths of external code.
- `Show`: models the endless loop over a finite run of ticks, so it says nothing about a run that never ends.
- `Monitor.Data.constructor`: `capacity` is a `nat`, not a bounded `usize`. No operation of the model does arithmetic that could overflow it.
