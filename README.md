# parmap in Dafny

A verified model of `parmap`, a Go package whose single entry point `Do`
runs a fallible operation over every element of a slice concurrently. `Do`
keeps each result at the position of its input and gathers the failures into
an `ErrMap`, a map from the failed item's index to its error. `ErrMap`
renders itself deterministically: the keys in ascending order, one
`"<index>: <message>"` entry each, joined the way Go's `errors.Join` joins
errors (one per line).

The model has four modules:

- `Wrappers` (`wrappers.dfy`): `Option` (`None` stands for Go's nil) and
  `Result` (what the user operation returns).
- `Text` (`text.dfy`): Go's `%d` rendering of an int (`Decimal`) with its
  parser, and the newline join of `errors.Join` (`JoinLines`) with its
  inverse (`SplitLines`).
- `ErrMaps` (`errmap.dfy`): `ErrMap`, the ascending key listing, and
  `ErrJoin`, `String` and `Error`. `Wrap` and the rendered map have parsers
  (`ParseWrapped`, `ParseErrMap`), and the round trips are proved (the map's
  for messages without newlines).
- `ParMap` (`parmap.dfy`): the dispatcher, the workers and the two collector
  actors, with the goroutines and channels abstracted away.
  - A worker is `Route`: it sends each outcome to exactly one collector.
  - The collectors are the class `Collector`. It owns the results array, the
    error map and the count of done signals. Its methods apply one outcome
    each.
  - The completion barrier is `AwaitCompletions`. `Do` ties them together.
  - The order in which outcomes reach the collectors is the scheduler's
    choice. It is the parameter `completion`, which must be a permutation of
    `[0, N)`. `ScheduleOutcome` and `OrderIndependence` prove that this order
    never changes the final state.

Error values are modelled by their message strings (`Message`). The user
operation is a total function `op: IN -> Result<OUT, Message>`. Go's zero
value of `OUT` is an explicit `default` argument.

## Model

| member | source | states |
|---|---|---|
| `ParMap.Do` | parmap.go:113-145 | For every permutation of completion order: the result has one slot per input. Slot `i` holds `op(inputs[i])`'s value if it succeeded and the zero value if it failed. The error is nil exactly when no item failed. Otherwise the map's keys are exactly the failed indices, each mapped to that item's error. |
| `ParMap.AwaitCompletions` | parmap.go:134-138 | Waits for one done signal per input while outcomes arrive in any permutation order. Afterwards the collectors hold the promised results, the promised error map and exactly N done signals. |
| `ParMap.Route` | parmap.go:90-104 | A worker's outcome carries the input's index and goes to exactly one collector. It is an error message iff the operation failed, and a result iff it succeeded. |
| `ParMap.Deliver` | parmap.go:49-73 | One collector step. A result is written at its own slot, every other slot and the error map are unchanged. An error is inserted under its own index, the results and every other entry are unchanged. Either way the slice length is kept and exactly one done signal is added. |
| `ParMap.DeliverAll` | parmap.go:136-138 | Handling a sequence of outcomes adds one done signal per outcome and keeps the slice length. |
| `ParMap.Initial` | parmap.go:42-64 | The collectors' starting state: N slots each holding the zero value, an empty error map and no done signals. `NothingHandled` shows it is the state in which no item has been handled. |
| `ParMap.NothingHandled` | parmap.go:42-64 | The starting state equals the per-item description of the collectors with no item handled. |
| `ParMap.Outcomes` | parmap.go:127-132 | The outcomes of the items listed in an order are one per listed position, the `j`-th tagged with the `j`-th listed position, each addressed to a valid slot. |
| `ParMap.Collector.constructor` | parmap.go:42-44 | A fresh results array of length N, every slot holding the zero value, with an empty error map and no done signals. |
| `ParMap.Collector.CollectResult` | parmap.go:49-52 | Writes the value at its index and sends one done signal. The error map is unchanged. |
| `ParMap.Collector.CollectError` | parmap.go:70-73 | Inserts the error under its index and sends one done signal. The results array is unchanged. |
| `ParMap.Collector.Receive` | parmap.go:92-104 | An outcome is applied by the collector it was routed to, and only by that collector. |
| `ParMap.DeliverCommutes` | parmap.go:49-73 | Two outcomes for different indices give the same collector state in either order. |
| `ParMap.PartialStep` | parmap.go:49-73 | Handling one more item extends the per-index description of the collectors' state by that item. |
| `ParMap.PrefixState` | parmap.go:46-79 | After any sequence of completions, a slot is written exactly when its item was handled and succeeded. The map holds exactly the handled failures. The signal count is the number handled. |
| `ParMap.ScheduleOutcome` | parmap.go:123-138 | Any permutation of `[0, N)` as completion order yields the promised results, the promised error map and N done signals. |
| `ParMap.OrderIndependence` | parmap.go:46-79 | Two completion orders leave the results array and the error map identical. |
| `ParMap.ExpectedMeaning` | parmap.go:140-144 | The promised state, item by item: the value or the zero value per slot, the keys exactly the failures, and an empty map iff every item succeeded. |
| `ParMap.AllFail` | parmap.go:92-96 | When every item fails, the error map's keys are exactly `0..N-1`, so it has N entries. |
| `ErrMaps.ErrJoin` | parmap.go:21-32 | Nil exactly for an empty map. Otherwise it is the newline join of the wrapped entries in ascending key order. |
| `ErrMaps.String` | parmap.go:34-36 | The message of `ErrJoin` for a non-empty map. |
| `ErrMaps.Error` | parmap.go:38-40 | The same message as `String` and `ErrJoin`. |
| `ErrMaps.Entries` | parmap.go:22-29 | One wrapped entry per listed key. |
| `ErrMaps.SortedKeys` | parmap.go:24-25 | The map's keys as a strictly ascending sequence, containing every key and nothing else. |
| `ErrMaps.Sort` | parmap.go:25 | Sorting a listing of distinct keys gives a strictly ascending sequence of the same keys. |
| `ErrMaps.SortListing` | parmap.go:24-25 | Whatever order `maps.Keys` lists the keys in, sorting that listing gives `SortedKeys`. This makes the rendering deterministic. |
| `ErrMaps.Wrap` | parmap.go:28 | The wrapped message has a newline iff the original message has one. |
| `ErrMaps.WrapRoundTrip` | parmap.go:28 | `"<k>: <msg>"` reads back as `(k, msg)`, whatever colons the message holds. |
| `ErrMaps.StringLayout` | parmap.go:21-36 | With newline-free messages, the rendering has one line per key. Line `i` is the `i`-th key in ascending order with that key's message. |
| `ErrMaps.StringRoundTrip` | parmap.go:21-40 | With newline-free messages, parsing the rendered message gives back exactly the map. |
| `Text.Decimal` | parmap.go:28 | `%d` gives a non-empty text with no colon and no newline. It starts with `-` iff the number is negative. |
| `Text.DecimalRoundTrip` | parmap.go:28 | Every int's `%d` rendering parses back to that int. |
| `Text.NatDigits` | parmap.go:28 | The decimal digits of a natural number: all digits, no leading zero. |
| `Text.JoinLines` | parmap.go:31 | The `errors.Join` message starts with the first message. It has no newline iff there is at most one message and no message has a newline. `SplitJoin` gives its inverse. |
| `Text.SplitJoin` | parmap.go:31 | Splitting the `errors.Join` message of newline-free messages at newlines gives back the messages. |
| `Text.JoinSplit` | parmap.go:31 | Joining the lines of any text with newlines gives back the text. |

## Left out

- Goroutines, unbuffered channels, `select`, `close`, `defer` and the
  `doneChan` handshake are not modelled (parmap.go:44-58, 65-79, 85-110,
  115-138). They only serialise the updates. The scheduler's choice is the
  `completion` parameter of `Do`. Its `requires IsSchedule(...)` is the
  scheduler's guarantee that each tagged input is handled exactly once. It
  asks nothing of `Do`'s callers.
- Which goroutine handles which input is not modelled. `Do` starts N
  goroutines. Each loops until the input channel closes, because the `break`
  at parmap.go:98 only leaves the `select`. So one goroutine can handle
  several inputs. The model routes each input exactly once, whichever
  goroutine runs it.
- An operation that never returns is not modelled. `Do` has no time-out, so
  it would block forever.
- `op` is a pure, total Dafny function. A Go operation that panics kills the
  process from inside its worker goroutine, and one with side effects may
  give different results for equal inputs. Neither is modelled.
- `op` returns `Result` instead of Go's `(result, err)` pair. On an error,
  Go drops the result (parmap.go:90-98), and so does the model.
- The `final` field of `data` is never read or written by the source and is
  not modelled.
- The `%w` wrap chain, `errors.Is` and `errors.Unwrap` are not modelled. Only
  the message string is.
- An `ErrMap` built by hand with a nil error value is not modelled. Its
  rendering would contain `%!w(<nil>)`. `Do` never stores nil.
- `ErrMaps.String`: requires a non-empty map. On an empty map `ErrJoin`
  returns nil, and Go's `.Error()` on it panics.
- `ErrMaps.Error`: requires a non-empty map, for the same reason.
- `ErrMaps.Sort`: models `slices.Sort` only on listings without duplicates.
  Map keys are the only input it gets here.
- `ErrMaps.StringLayout`: assumes messages without newlines. A message with
  a newline makes the joined text ambiguous. This is the rendering's own
  limit, not a gap in the proof.
- `ErrMaps.StringRoundTrip`: assumes messages without newlines, for the same
  reason.
- Go's `int` is 64-bit. Indices are below `len(inputs)`, so no wrap-around
  can occur. `ErrMap` keys are unbounded ints in the model.
- `Do` returns a fresh `seq` rather than the slice backed by the collector's
  array. No other code holds that array once `Do` returns, so no aliasing is
  lost.
