# Request-dispatch engine of an HTTP load generator, modelled in Dafny

The engine sends N requests spread over C workers. Each worker makes N/C
requests, each on a fresh clone of one request template. Each worker pushes
one result record per request into a bounded result queue. A separate
reporter drains that queue. A `Stop` call puts one token per worker into a
stop-token queue. Each worker checks for a token before every iteration:
if one is waiting, the worker takes it and returns.

The model is sequential. `requester.dfy` (module `Requester`) holds:

- the sizing arithmetic: `Min`, the result-queue capacity, and the transport's
  idle-connection limit;
- `CloneRequest`, over a request record whose header is a
  `map<string, seq<string>>`;
- a `Work` class with these fields:
  - `initialised`, which stands for the one-time initialiser;
  - the capacities of both queues;
  - `results`, the log of every record sent into the result queue;
  - `stopTokens`, the number of waiting stop tokens;
  - `closed`, the closed flag of the result queue.

The class methods `Init`, `Stop`, `PollStop` (the non-blocking check), `Finish`,
`MakeRequest`, `RunWorker`, `RunWorkers` and `Run` change these fields.

Three things stand in for what the model cannot see:

- The network is a parameter `net: nat -> Outcome`. It gives the outcome of the
  k-th request of the run: an error, or a status code with a content length.
- The workers run one after another, which is one legal schedule.
- A concurrent `Stop` is placed by a schedule parameter (`Interrupt`) just before
  a chosen iteration of a chosen worker.

`scenarios.dfy` (module `Scenarios`) builds `Work` objects and runs whole
configurations. It uses nothing but the contracts of `Requester`.

## Model

| member | source | states |
|---|---|---|
| `Requester.Min` | requester/requester.go:396-401 | the result is at most both arguments and equals one of them |
| `Requester.ResultCapacity` | requester/requester.go:113 | the result-queue capacity never exceeds the 1000000 ceiling nor C*1000, is one of the two, and is at least 1000 when C > 0 |
| `Requester.MaxIdleConnsPerHost` | requester/requester.go:318 | the idle-connection limit never exceeds 500 nor C, and is one of the two |
| `Requester.DroppedRemainder` | requester/requester.go:344-349 | C*(N/C) equals N - N%C, and lies in (N-C, N] |
| `Requester.Work.TotalDropsRemainder` | requester/requester.go:344-349 | a run nobody stops issues N - N%C requests: at most N and more than N-C |
| `Requester.CloneRequest` | requester/requester.go:362-394 | the clone has exactly the template's header keys, with the same values under each key. Every other field is copied. The body becomes a reader over the given bytes when they are non-empty, and otherwise stays the template's body. With no body, the clone equals the template |
| `Requester.SentSplit` | requester/requester.go:276-302 | the records of a+b consecutive requests are those of the first a followed by those of the next b |
| `Requester.SentConstant` | requester/requester.go:204-249 | if the network answers every request the same way, every record sent is that one record |
| `Requester.FewerThanFull` | requester/requester.go:290-294 | a stop landing before iteration i < N/C of worker w < C leaves w*(N/C)+i below C*(N/C) |
| `Requester.Work.constructor` | requester/requester.go:51-100 | a fresh run: uninitialised, no results, no tokens, not closed, with the given template, body, N and C |
| `Requester.Work.Init` | requester/requester.go:110-117 | afterwards the result capacity is min(C*1000, 1000000) and the stop capacity is C; a second call changes neither; the log, tokens and closed flag are untouched |
| `Requester.Work.Stop` | requester/requester.go:136-141 | needs the queue set up and room for C tokens; raises the token count by exactly C |
| `Requester.Work.PollStop` | requester/requester.go:290-295 | takes one token and answers true exactly when a token is waiting; otherwise changes nothing |
| `Requester.Work.Finish` | requester/requester.go:143-144 | closes the result queue when it is open; closing before Init or a second time is a panic and closes nothing new |
| `Requester.Work.MakeRequest` | requester/requester.go:155-164 | appends exactly one record. On an error the record carries the error with status 0 and size 0. On a response it carries the response's status and content length, which may be -1 |
| `Requester.Work.RunWorker` | requester/requester.go:252-303 | appends the records of consecutive requests, at most n. With n = 0 nothing changes. With n > 0 and a token waiting at entry it takes one and appends nothing. With no token and no Stop it appends exactly n records and leaves the tokens at 0. With a Stop landing before iteration i, it appends exactly i records and leaves C-1 tokens |
| `Requester.Work.RunWorkers` | requester/requester.go:305-357 | with no Stop landing, (C - t)*(N/C) records are appended, where t is the number of tokens waiting at the start. With a Stop before iteration i of worker w, w*(N/C)+i records are appended, fewer than C*(N/C), and w tokens are left untaken. The log only ever grows by the next requests' records |
| `Requester.Work.Run` | requester/requester.go:121-132 | initialises, runs the workers and closes the result queue exactly once, without a panic. Unstopped, it yields C*(N/C) records; never more |
| `Scenarios.EvenSplit` | requester/requester.go:344-349 | N=100, C=10 with every request answered: exactly 100 records, each a success |
| `Scenarios.UnevenSplit` | requester/requester.go:344-349 | N=10, C=3: exactly 9 records |
| `Scenarios.AllFail` | requester/requester.go:204-249 | a network that always fails: 9 records, each carrying the error with status 0 and size 0, and the run still closes the queue |
| `Scenarios.StopMidRun` | requester/requester.go:290-294 | N=10, C=2, Stop before iteration 2 of worker 1: 7 records, one token left untaken |
| `Scenarios.StopBeforeRun` | requester/requester.go:136-141 | a Stop before the workers start: every worker takes one token and nothing is sent |

## Left out

- The HTTP transport and client, the TLS settings, the network call and the draining and closing of the response body are not modelled. They are library I/O; the `net` parameter gives each request's outcome instead.
- Clock readings and every duration field of a result are not modelled, including the fixed one-second placeholders. They are timing, not logic.
- Goroutines, the wait group, the random choice of `select`, and blocking on a full or nil queue are not modelled. The model fixes one sequential schedule and proves nothing about interleavings or backpressure.
- The reporter, the report's completion signal, `finalize` and the default output writer are not modelled. They are output plumbing outside the engine.
- Rate limiting, redirect control, request tracing and HTTP/2 handling are not modelled. They are commented out or empty in the source.
- The three demo programs under `practice/utils` are not modelled. They print, serve REST through a third-party library, or demonstrate a random `select`.
- CloneRequest: Dafny values cannot alias, so "the clone shares no header storage with the template" holds by construction and is not stated. The template's own body reader is shared with the clone when no body is given; the model treats a body as a value and does not capture that sharing.
- CloneRequest: the clone keeps the template's `contentLength` even when a new body is installed, as the source does.
- Work.Init: C*1000 is computed on unbounded integers. The source's 64-bit `int` would wrap only for C above about 9.2e15.
- Work.Stop: in the source, a call with no room for C tokens blocks (and on an uninitialised queue blocks forever). The model requires room instead of modelling blocking.
- Work.MakeRequest: sending on a closed queue panics and sending before Init blocks forever in the source; the model requires an initialised, open queue, which every run satisfies.
- Work.RunWorkers: N and C are natural numbers; negative values, which the source would accept as `int`, are not modelled.
- Work.Finish: after closing, the source measures the elapsed time, waits for the reporter and calls `finalize`. Only the close is modelled.
