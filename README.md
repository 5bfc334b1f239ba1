# DDoS detector: fixed-window request counter

This project models the request counter of the `rateLimiter` HTTP middleware
in `ddos_detector.go`. The middleware sits in front of every handler. For each
request it takes the client key (the remote address) and the current time,
and keeps one record per key in the tracker's table. A record holds the number
of requests in the current window and the time that window began.

- A key that is not tracked yet gets a fresh record: count 1, window start now.
- A key whose window began strictly more than `timeWindow` (ten seconds) ago
  also gets a fresh record.
- Any other request adds one to the key's count. If the new count exceeds
  `requestLimit` (100), the request is flagged as potential DDoS traffic.
  The Go middleware logs a line in that case and never blocks the request.

Module `DdosDetector` (`ddos_detector.dfy`) holds the constants, the record
type, the pure transition `Step`, and the class `IPTracker`. `IPTracker` has
the table as a `map` field. Its `Observe` method updates that field in place
and is proved to implement `Step`. Lemmas about one step state what each path
does.

Module `RequestTrace` (`request_trace.dfy`) runs sequences of requests through
`Step` one at a time, in the order the tracker's mutex serializes them. It
proves the properties that span several calls:

- counting within a window and the threshold at call 101;
- the window reset, which forgets the earlier count;
- client independence under any interleaving;
- the invariant that every record has a count of at least one;
- window starts that never move backward;
- the fixed-window boundary burst: `2 * requestLimit` unflagged requests, all
  but the first within one nanosecond of each other.

It ends with three concrete runs for client `1.2.3.4`: 100 calls at time 0,
then a 101st call at 1 s (flagged) or at 11 s (count reset to 1).

Time is an integer number of nanoseconds. `Second` is `1_000_000_000` and
`TimeWindow` is `10 * Second`.

## Model

| member | source | states |
|---|---|---|
| `DdosDetector.Step` | ddos_detector.go:41-51 | one request changes only the entry for its own key; that key is always tracked afterwards; no key is removed; a flagged request leaves a count above the limit |
| `DdosDetector.IPTracker.constructor` | ddos_detector.go:28-30 | the tracker starts with an empty table, which satisfies the count invariant |
| `DdosDetector.IPTracker.Observe` | ddos_detector.go:35-51 | updates the table in place exactly as `Step` does and returns the log condition as `flagged`; keeps every count at 1 or more; adds at most the caller's key; leaves every other record unchanged |
| `DdosDetector.StepNewClient` | ddos_detector.go:41-45 | an untracked key is inserted with count 1 and timestamp `now`, and the request is not flagged |
| `DdosDetector.StepExpiredResets` | ddos_detector.go:44-45 | when strictly more than `TimeWindow` has elapsed, the record becomes count 1 and timestamp `now`, unflagged; the result equals that for a never-seen key, so the old count has no influence |
| `DdosDetector.StepBoundaryCounts` | ddos_detector.go:44-47 | elapsed time exactly equal to `TimeWindow` does not reset: the count grows by one within the same window |
| `DdosDetector.StepWithinWindow` | ddos_detector.go:44-47 | within the window the count grows by exactly 1 and the timestamp is kept |
| `DdosDetector.StepFlaggedIff` | ddos_detector.go:44-49 | a request is flagged if and only if it is tracked, within its window, and its incremented count exceeds `RequestLimit` |
| `DdosDetector.StepKeepsCounted` | ddos_detector.go:44-47 | one request preserves "every record has count >= 1" |
| `DdosDetector.StepTimestampForward` | ddos_detector.go:44-45 | no record is removed; a timestamp changes only for the requesting key on the expired path, and then to a strictly later value, even if `now` is not monotone |
| `DdosDetector.StepFlagPersists` | ddos_detector.go:44-49 | once a count exceeds the limit, a further request within the window is flagged and the count stays above the limit |
| `RequestTrace.Replay` | ddos_detector.go:37-51 | running a sequence of serialized requests gives exactly one verdict per request |
| `RequestTrace.ReplayKeys` | ddos_detector.go:41-45 | after any run, the tracked keys are the earlier keys plus the keys that made requests; nothing is evicted |
| `RequestTrace.ReplayKeepsCounted` | ddos_detector.go:44-47 | every run preserves "every record has count >= 1" |
| `RequestTrace.ReplayTimestampForward` | ddos_detector.go:44-45 | over any run a tracked key stays tracked and its window start never moves backward |
| `RequestTrace.StepLocal` | ddos_detector.go:41-47 | what a request does to a key's record, and its verdict, depend only on that key's record |
| `RequestTrace.ReplayLocal` | ddos_detector.go:41-49 | starting from tables that agree on a key, a full run and the run of only that key's requests end with the same record and the same verdicts for that key |
| `RequestTrace.ClientIndependence` | ddos_detector.go:41-49 | interleaved requests of other clients never change a client's record or its verdicts |
| `RequestTrace.WithinWindowCounts` | ddos_detector.go:44-49 | requests within a tracked key's window add one each to its count and keep its start; request `i` is flagged exactly when `count + i + 1` exceeds the limit |
| `RequestTrace.FirstWindow` | ddos_detector.go:44-49 | from a new or expired record, `n` requests within `TimeWindow` of the first end with count `n` and the window starting at the first; request `i` is flagged exactly when `i + 1 > RequestLimit` |
| `RequestTrace.ThresholdTrigger` | ddos_detector.go:12-49 | for a new client, 100 calls at one instant `t0` are not flagged and a 101st call at most `TimeWindow` after `t0` (earlier or later) is, with count 101 |
| `RequestTrace.WindowReset` | ddos_detector.go:44-45 | after any first window of calls from a client, however many, a call strictly later than `TimeWindow` after that window's start resets the count to 1 and is not flagged |
| `RequestTrace.BoundaryBurst` | ddos_detector.go:44-49 | fixed-window artefact: 1 call at `t0`, 99 calls at `t0 + TimeWindow` and 100 at `t0 + TimeWindow + 1` are all unflagged |
| `RequestTrace.ScenarioHundredCalls` | ddos_detector.go:12-49 | 100 calls at time 0 are all unflagged and the count is 100 |
| `RequestTrace.ScenarioFlaggedWithinWindow` | ddos_detector.go:12-49 | a 101st call at 1 s is flagged with count 101 |
| `RequestTrace.ScenarioResetAfterWindow` | ddos_detector.go:12-49 | a 101st call at 11 s is not flagged and restarts the count at 1 |

## Left out

- HTTP plumbing (ddos_detector.go:33-35, 53): wrapping the handler, reading `r.RemoteAddr`, and calling `next.ServeHTTP`. These are library I/O. The client key is the `ip` parameter.
- `main` and `ListenAndServe` (ddos_detector.go:57-68): server start-up, which is I/O.
- `sync.Mutex` (ddos_detector.go:24, 37-38): the lock only makes each call atomic. `Observe` is one atomic method, and `Replay` runs requests in the order the lock serializes them. Concurrency itself is not modelled.
- `time.Now()` (ddos_detector.go:40): the time is the `now` parameter, an integer count of nanoseconds. Go's monotonic-clock readings and the saturation of `Time.Sub` at the `int64` bounds (ddos_detector.go:44) are not modelled. Elapsed time is exact integer subtraction.
- `log.Printf` (ddos_detector.go:49): replaced by the returned `flagged` verdict. The log line's formatting is not modelled.
- DdosDetector.IPTracker.Observe: does not model wrap-around of Go's `int` count (ddos_detector.go:47). The count is an unbounded integer, because on 64-bit platforms overflow would take 2^63 requests in one window.
- DdosDetector.IPTracker.Observe: the record is a value replaced in the map. The Go code uses a `*requestData` pointer that `reqData.count++` mutates in place (ddos_detector.go:45-47). This is equivalent because each record is reachable only through its own map entry, and only the closure reads the map, so replacing the entry cannot be told apart from mutating through the pointer.
- The global `tracker` variable (ddos_detector.go:28-30) is an `IPTracker` object built by its constructor.
