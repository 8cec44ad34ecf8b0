# netfoolery throughput counter, modelled in Dafny

This project models the `Analytics` type of netfoolery's
`internal/analytics` package. It is the throughput counter that every
benchmark command (TCP, UDP, HTTP/1 and Go channels) uses to report how many
operations completed, in total and per second. The counter holds:

- a running `totalCount`;
- a window of two `(unix-second, count)` buckets, oldest first.

`IncrForTime(t)` adds one to the total and updates the window (`setTimeCount`):

- if `t` differs from the newest bucket's second, the window slides: the oldest
  bucket is dropped and `(t, 0)` is appended;
- in every case the newest bucket's count then rises by one.

The call returns the new total and the oldest bucket's count. That count is the
rate of the last complete second.

The file `analytics.dfy` holds one module, `Analytics`:

- `TimeCountPair` is the bucket value.
- The class `Analytics` has the source's fields. `totalCount` is a `nat`,
  `timeCount` is a `seq` that the methods reassign the way the Go code
  reslices and appends, and `concurrencySafe` is a `bool`. There is also a
  ghost field `history`: the per-second record of every counted operation.
- The specification is that per-second history. `History(seen)` is the
  run-length record of the timestamps `seen` fed to a fresh counter, starting
  from the two zero placeholder buckets. `Record` adds one operation to it.
  A new counter's ghost history is `History([])`, and every `IncrForTime(t)`
  applies `Record(_, t)` to it. By `HistoryAppend`, after the calls
  t1, ..., tn it is therefore `History([t1, ..., tn])`. `ReplayAll` proves
  this for every timestamp sequence: it feeds the sequence to a new counter
  in a loop and ends with total n and window `Newest(History(seen), 2)`.
- The object invariant `Valid()` says five things. The history holds at
  least two buckets. The window is the newest two buckets of the history.
  The window has length 2. The total equals the
  sum of all history counts. The two window counts together never exceed the
  total.
- `Advance` is the window update `setTimeCount` performs. It is stated as
  "the newest |w| buckets of the history after recording one more
  operation". Its contract spells out the same-second case and the slide
  case. `NewestRecord` proves that keeping only a window and keeping the
  whole history agree.
- Two lemmas about the history state the counter's main properties. `HistoryCounts`:
  every operation is counted exactly once, whatever order the timestamps
  arrive in. `ClosedBucketsFinal`: a superseded second's count never changes
  again.
- `ReplaySampleTrace` runs a fresh counter on the seconds 10, 10, 10, 11, 11
  and 12. The calls report rates 0, 0, 0, 3, 3, 2 and totals 1 to 6, and the
  final window is `[(11, 2), (12, 1)]`.

## Model

| member | source | states |
|---|---|---|
| `Analytics.Analytics.constructor` | internal/analytics/analytics.go:21-28 | `New` gives total 0 and a window of exactly two zero buckets `(0, 0)`, stores the `concurrencySafe` flag, starts the ghost history at `History([])` and establishes the invariant |
| `Analytics.Analytics.TotalCount` | internal/analytics/analytics.go:30-38 | changes nothing; returns `totalCount`, which equals the number of operations recorded in the history |
| `Analytics.Analytics.CountPerSecond` | internal/analytics/analytics.go:40-49 | changes nothing; returns the oldest bucket's count, which is the count of the newest closed second of the history (or of the zero placeholder before any second has closed) |
| `Analytics.Analytics.IncrForTime` | internal/analytics/analytics.go:51-64 | the total rises by exactly one and is the first result; the window becomes `Advance(old window, t)` and the ghost history `Record(old history, t)`; the second result is the oldest bucket's count afterwards, and after a slide it is the superseded newest bucket's count; the flag is unchanged and the invariant (window length 2, window is the newest two history buckets, total is the history's count sum, window counts at most the total) is kept |
| `Analytics.Analytics.SetTimeCount` | internal/analytics/analytics.go:66-76 | the reslice, append and in-place increment leave `timeCount == Advance(old(timeCount), t)` for any window of length at least one, and no other field changes |
| `Analytics.Advance` | internal/analytics/analytics.go:66-76 | the window keeps its length; if `t` is the newest bucket's second, every other bucket is unchanged and the newest becomes `(t, count + 1)`; otherwise, whether `t` is later or earlier, the result is the old window without its oldest bucket followed by `(t, 1)` |
| `Analytics.Record` | internal/analytics/analytics.go:69-75 | recording one operation at `t` either grows the history by one bucket or keeps its length, and keeps it exactly when the newest bucket is for `t`; if it keeps the length, the newest bucket becomes `(t, count + 1)`; if it grows, the old newest bucket stays in place and `(t, 1)` is appended; every earlier (closed) bucket is unchanged |
| `Analytics.RecordCountsOne` | internal/analytics/analytics.go:69-75 | recording an operation adds exactly one to the sum of the history's counts |
| `Analytics.History` | internal/analytics/analytics.go:54-76 | the history of a fresh counter after the timestamps `seen` has at least the two starting buckets and at most one more bucket per timestamp |
| `Analytics.HistoryAppend` | internal/analytics/analytics.go:60-61 | feeding one more timestamp `t` turns the history into `Record(history, t)`, the step `IncrForTime` takes on its ghost history |
| `Analytics.HistoryCounts` | internal/analytics/analytics.go:54-63 | the counts in the history add up to the number of timestamps fed, for every order of arrival: no operation is lost or counted twice |
| `Analytics.ClosedBucketsFinal` | internal/analytics/analytics.go:66-76 | feeding any further timestamps leaves every closed bucket of the history (all but the newest) exactly as it was, so a reported per-second count never changes once its second is superseded |
| `Analytics.NewestRecord` | internal/analytics/analytics.go:66-76 | updating only the newest `n` buckets with `Advance` gives the newest `n` buckets of the fully recorded history, so the two-bucket window loses nothing the rate depends on |
| `Analytics.NewestWithinSum` | internal/analytics/analytics.go:69-75 | the two newest buckets of a history never count more than the whole history |
| `Analytics.WindowWithinTotal` | internal/analytics/analytics.go:60-75 | for any sequence of timestamps, the two window buckets together never count more than the number of operations fed |
| `Analytics.SlideReportsSuperseded` | internal/analytics/analytics.go:63-73 | when a timestamp opens a new second, the oldest window bucket afterwards (the reported rate) is the bucket it superseded, with that bucket's second and count |
| `Analytics.ReplayAll` | internal/analytics/analytics.go:54-76 | for every timestamp sequence fed in order to a new counter, the final total equals the number of calls and the final window is the newest two buckets of `History(seen)` |
| `Analytics.ReplaySampleTrace` | internal/analytics/analytics.go:54-76 | a fresh counter fed 10, 10, 10, 11, 11, 12 reports totals 1 to 6 and rates 0, 0, 0, 3, 3, 2, and ends with the window `[(11, 2), (12, 1)]` |

## Left out

- The `sync.RWMutex` and the locking that `concurrencySafe` switches on are not modelled, because they are a concurrency concern. The counter is modelled as single-threaded: every call runs as one atomic step. The flag is still stored.
- Go's `uint` wrap-around on `totalCount` and `count` is not modelled: both are `nat`. Timestamps are `int64` in the source and `int` here. They are only compared, so their width does not matter.
- Counters not built by `New` are not modelled: the class's methods require the object invariant that the constructor establishes. A zero-value `Analytics{}` has an empty slice, and `setTimeCount` panics on it by indexing position -1. `SetTimeCount` models that by requiring a non-empty window.
- Some callers (`cmd/http1/main.go:106`, `cmd/http1/main.go:148`, `cmd/gochannels/main.go:43`) call `New()` with no argument. The constructor follows the one-argument signature in `internal/analytics/analytics.go`.
- The command binaries `cmd/tcp`, `cmd/udp`, `cmd/http1` and `cmd/gochannels` are not modelled: they are network I/O, goroutines, channels, worker limits, tickers and flag wiring. The `validateConfig` of `cmd/tcp` (main.go:97), `cmd/udp` (main.go:93) and `cmd/http1` (main.go:77) is only a `numWorkers == 0` check. `internal/pkginfo` is a version string with no behaviour.
- Nothing is assumed about timestamp order. Timestamps need not be non-decreasing: `setTimeCount` compares only against the newest bucket (internal/analytics/analytics.go:69), so an earlier timestamp slides the window just as a later one does.
