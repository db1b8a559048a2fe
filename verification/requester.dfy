// A sequential model of the request-dispatch engine of an HTTP load generator:
// request cloning, queue sizing, and the lifecycle of a load-test run
// (Init, Stop, makeRequest, runWorker, runWorkers, Finish) over a log of the
// results sent into the result queue.

module Requester {

  /** Hard ceiling on the capacity of the result queue. */
  const MaxResult: nat := 1000000

  /** Ceiling on the idle connections the shared transport keeps per host. */
  const MaxIdleConn: nat := 500

  datatype Option<T> = None | Some(value: T)

  newtype byte = x: int | 0 <= x < 256

  // ---------------------------------------------------------------------------
  // Sizing arithmetic

  function Min(a: int, b: int): (r: int)
    ensures r <= a && r <= b
    ensures r == a || r == b
  {
    if a < b then a else b
  }

  /** Capacity of the result queue made by Init for concurrency `c`. */
  function ResultCapacity(c: nat): (cap: nat)
    ensures cap <= MaxResult && cap <= c * 1000
    ensures cap == MaxResult || cap == c * 1000
    ensures c > 0 ==> cap >= 1000
  {
    Min(c * 1000, MaxResult)
  }

  /** Idle connections per host of the transport shared by `c` workers. */
  function MaxIdleConnsPerHost(c: nat): (idle: nat)
    ensures idle <= MaxIdleConn && idle <= c
    ensures idle == MaxIdleConn || idle == c
  {
    Min(c, MaxIdleConn)
  }

  /** Per-worker iteration count N/C; the remainder N % C is never issued. */
  lemma DroppedRemainder(n: nat, c: nat)
    requires c > 0
    ensures c * (n / c) == n - n % c
    ensures n - c < c * (n / c) <= n
  {
    var q, r := n / c, n % c;
    assert n == c * q + r;
    assert 0 <= r < c;
  }

  // ---------------------------------------------------------------------------
  // Requests

  type Header = map<string, seq<string>>

  /** A request body: none, or a reader over a byte payload. */
  datatype Body = NoBody | Reader(content: seq<byte>)

  datatype Request = Request(
    verb: string,
    url: string,
    proto: string,
    host: string,
    header: Header,
    body: Body,
    contentLength: int)

  /**
   * Copies the template `r`: every field is copied, the header is rebuilt key
   * by key, and the body is replaced by a reader over `body` only when `body`
   * is non-empty.
   */
  method CloneRequest(r: Request, body: seq<byte>) returns (r2: Request)
    ensures r2.header.Keys == r.header.Keys
    ensures forall k :: k in r2.header ==> r2.header[k] == r.header[k]
    ensures r2.verb == r.verb && r2.url == r.url && r2.proto == r.proto
    ensures r2.host == r.host && r2.contentLength == r.contentLength
    ensures |body| > 0 ==> r2.body == Reader(body)
    ensures |body| == 0 ==> r2.body == r.body
    ensures |body| == 0 ==> r2 == r
  {
    var h: Header := map[];
    var rest := r.header.Keys;
    while rest != {}
      invariant rest <= r.header.Keys
      invariant h.Keys == r.header.Keys - rest
      invariant forall k :: k in h ==> h[k] == r.header[k]
      decreases rest
    {
      var k :| k in rest;
      h := h[k := [] + r.header[k]];
      rest := rest - {k};
    }
    r2 := r.(header := h);
    if |body| > 0 {
      r2 := r2.(body := Reader(body));
    }
  }

  // ---------------------------------------------------------------------------
  // Results

  /** What the network did with one request: an error, or a response. */
  datatype Outcome = Failed(err: string) | Responded(statusCode: int, contentLength: int)

  /** One record sent into the result queue; durations are not modelled. */
  datatype Result = Result(err: Option<string>, statusCode: int, contentLength: int)

  /** The record makeRequest sends for `o`. */
  function ResultOf(o: Outcome): Result
  {
    match o
    case Failed(e) => Result(Some(e), 0, 0)
    case Responded(code, size) => Result(None, code, size)
  }

  /** The records of `count` requests whose sequence numbers start at `from`. */
  function Sent(net: nat -> Outcome, from: nat, count: nat): seq<Result>
  {
    seq(count, j requires 0 <= j < count => ResultOf(net(from + j)))
  }

  lemma SentSplit(net: nat -> Outcome, from: nat, a: nat, b: nat)
    ensures Sent(net, from, a) + Sent(net, from + a, b) == Sent(net, from, a + b)
  {
    var s := Sent(net, from, a) + Sent(net, from + a, b);
    forall j | 0 <= j < a + b
      ensures s[j] == Sent(net, from, a + b)[j]
    {
      if j >= a {
        assert s[j] == Sent(net, from + a, b)[j - a];
      }
    }
  }

  /** A network that always answers the same way yields identical records. */
  lemma SentConstant(net: nat -> Outcome, o: Outcome, from: nat, count: nat)
    requires forall k :: net(k) == o
    ensures forall r :: r in Sent(net, from, count) ==> r == ResultOf(o)
  {
    var s := Sent(net, from, count);
    forall r | r in s
      ensures r == ResultOf(o)
    {
      var j :| 0 <= j < |s| && s[j] == r;
      assert s[j] == ResultOf(net(from + j));
    }
  }

  /** A scheduled Stop falls inside a worker's loop of `n` iterations. */
  predicate StopLands(stopAt: Option<nat>, n: nat)
  {
    stopAt.Some? && stopAt.value < n
  }

  /**
   * Where, in the sequential schedule, the concurrent Stop call takes effect:
   * never, or just before iteration `iteration` of worker `worker`.
   */
  datatype Interrupt = NoStop | StopAt(worker: nat, iteration: nat)

  /** Why closing the result queue panics. */
  datatype ClosePanic = CloseOfNilChannel | CloseOfClosedChannel

  lemma FewerThanFull(c: nat, q: nat, w: nat, i: nat)
    requires w < c && i < q
    ensures w * q + i < c * q
  {
    assert (w + 1) * q == w * q + q;
    assert (w + 1) * q <= c * q;
  }

  // ---------------------------------------------------------------------------
  // The run

  class Work {
    /** The request template, cloned for every request. */
    const request: Request
    /** The body every request is sent with, when non-empty. */
    const requestBody: seq<byte>
    /** Total number of requests. */
    const N: nat
    /** Number of workers. */
    const C: nat

    /** Init has done its one-time setup. */
    var initialised: bool
    /** Capacity of the result queue (0 before Init). */
    var resultCap: nat
    /** Capacity of the stop-token queue (0 before Init). */
    var stopCap: nat
    /** Every result sent into the result queue, in order. */
    var results: seq<Result>
    /** Stop tokens waiting in the stop-token queue. */
    var stopTokens: nat
    /** The result queue has been closed. */
    var closed: bool

    ghost predicate Valid()
      reads this
    {
      && stopTokens <= stopCap
      && (initialised ==> resultCap == ResultCapacity(C) && stopCap == C)
      && (!initialised ==>
            results == [] && stopTokens == 0 && !closed && resultCap == 0 && stopCap == 0)
    }

    /** Iterations each worker is given. */
    function PerWorker(): nat
    {
      if C == 0 then 0 else N / C
    }

    /** Results of a run that nobody stops. */
    function Total(): nat
    {
      C * PerWorker()
    }

    /** An unstopped run issues N requests less the remainder N % C. */
    lemma TotalDropsRemainder()
      requires C > 0
      ensures Total() == N - N % C
      ensures N - C < Total() <= N
    {
      DroppedRemainder(N, C);
    }

    /** The interrupt falls inside some worker's loop. */
    predicate Lands(interrupt: Interrupt)
    {
      interrupt.StopAt? && interrupt.worker < C && interrupt.iteration < PerWorker()
    }

    constructor (request: Request, requestBody: seq<byte>, n: nat, c: nat)
      ensures Valid() && !initialised
      ensures this.request == request && this.requestBody == requestBody
      ensures N == n && C == c
      ensures results == [] && stopTokens == 0 && !closed
    {
      this.request := request;
      this.requestBody := requestBody;
      N := n;
      C := c;
      initialised := false;
      resultCap, stopCap := 0, 0;
      results := [];
      stopTokens := 0;
      closed := false;
    }

    /** Sets up both queues the first time it is called; later calls do nothing. */
    method Init()
      requires Valid()
      modifies this`initialised, this`resultCap, this`stopCap
      ensures Valid() && initialised
      ensures resultCap == ResultCapacity(C) && stopCap == C
      ensures old(initialised) ==> resultCap == old(resultCap) && stopCap == old(stopCap)
    {
      if !initialised {
        resultCap := ResultCapacity(C);
        stopCap := C;
        initialised := true;
      }
    }

    /** Puts one stop token per worker into the stop-token queue. */
    method Stop()
      requires Valid() && initialised
      requires stopTokens + C <= stopCap
      modifies this`stopTokens
      ensures Valid()
      ensures stopTokens == old(stopTokens) + C
    {
      var i := 0;
      while i < C
        invariant i <= C
        invariant stopTokens == old(stopTokens) + i
      {
        stopTokens := stopTokens + 1;
        i := i + 1;
      }
    }

    /** The non-blocking check at the head of each worker iteration. */
    method PollStop() returns (stop: bool)
      requires Valid()
      modifies this`stopTokens
      ensures Valid()
      ensures stop <==> old(stopTokens) > 0
      ensures stopTokens == if stop then old(stopTokens) - 1 else old(stopTokens)
    {
      stop := stopTokens > 0;
      if stop {
        stopTokens := stopTokens - 1;
      }
    }

    /** Closes the result queue. */
    method Finish() returns (panic: Option<ClosePanic>)
      requires Valid()
      modifies this`closed
      ensures Valid()
      ensures !old(initialised) ==> panic == Some(CloseOfNilChannel) && !closed
      ensures old(initialised) && old(closed) ==> panic == Some(CloseOfClosedChannel) && closed
      ensures old(initialised) && !old(closed) ==> panic == None && closed
    {
      if !initialised {
        panic := Some(CloseOfNilChannel);
      } else if closed {
        panic := Some(CloseOfClosedChannel);
      } else {
        closed := true;
        panic := None;
      }
    }

    /** Issues one request, whose fate is `outcome`, and sends its record. */
    method MakeRequest(outcome: Outcome)
      requires Valid() && initialised && !closed
      modifies this`results
      ensures Valid()
      ensures results == old(results) + [ResultOf(outcome)]
      ensures outcome.Failed? ==>
        results[|old(results)|] == Result(Some(outcome.err), 0, 0)
      ensures outcome.Responded? ==>
        results[|old(results)|] == Result(None, outcome.statusCode, outcome.contentLength)
    {
      var req := CloneRequest(request, requestBody);
      var size := 0;
      var code := 0;
      var err: Option<string> := None;
      match outcome {
        case Failed(e) =>
          err := Some(e);
        case Responded(status, length) =>
          size := length;
          code := status;
      }
      results := results + [Result(err, code, size)];
    }

    /**
     * One worker: up to `n` iterations, each of which first takes a stop token
     * if one is waiting (and then returns) and otherwise makes a request.
     * `stopAt` places the concurrent Stop call before that iteration.
     */
    method RunWorker(n: nat, net: nat -> Outcome, stopAt: Option<nat>)
      requires Valid() && initialised && !closed
      requires StopLands(stopAt, n) ==> stopTokens + C <= stopCap
      modifies this`results, this`stopTokens
      ensures Valid()
      ensures |old(results)| <= |results| <= |old(results)| + n
      ensures results == old(results) + Sent(net, |old(results)|, |results| - |old(results)|)
      ensures old(stopTokens) > 0 && n > 0 ==>
        results == old(results) && stopTokens == old(stopTokens) - 1
      ensures old(stopTokens) == 0 && StopLands(stopAt, n) && C > 0 ==>
        |results| == |old(results)| + stopAt.value && stopTokens == C - 1
      ensures old(stopTokens) == 0 && !(StopLands(stopAt, n) && C > 0) ==>
        |results| == |old(results)| + n && stopTokens == 0
      ensures n == 0 ==> results == old(results) && stopTokens == old(stopTokens)
    {
      var i := 0;
      while i < n
        invariant i <= n
        invariant Valid()
        invariant results == old(results) + Sent(net, |old(results)|, i)
        invariant old(stopTokens) > 0 ==> i == 0 && stopTokens == old(stopTokens)
        invariant old(stopTokens) == 0 ==> stopTokens == 0
        invariant StopLands(stopAt, n) && C > 0 ==> i <= stopAt.value
      {
        if stopAt == Some(i) {
          Stop();
        }
        var stop := PollStop();
        if stop {
          return;
        }
        SentSplit(net, |old(results)|, i, 1);
        MakeRequest(net(|results|));
        i := i + 1;
      }
    }

    /**
     * Runs the C workers, each given N/C iterations, one after another.
     */
    /**
     * Records appended by the first `w` workers of RunWorkers when `t0`
     * tokens were waiting at its start.
     */
    ghost function Added(interrupt: Interrupt, t0: nat, w: nat): nat
    {
      if Lands(interrupt) then
        if w <= interrupt.worker then w * PerWorker()
        else interrupt.worker * PerWorker() + interrupt.iteration
      else if w <= t0 then 0
      else (w - t0) * PerWorker()
    }

    /** Tokens still waiting after the first `w` workers of RunWorkers. */
    ghost function Left(interrupt: Interrupt, t0: nat, w: nat): int
    {
      if Lands(interrupt) then
        if w <= interrupt.worker then 0 else C - (w - interrupt.worker)
      else if PerWorker() == 0 then t0
      else if w <= t0 then t0 - w
      else 0
    }

    /** How worker `w` moves Added and Left, by the cases of RunWorker's contract. */
    lemma WorkerStep(interrupt: Interrupt, t0: nat, w: nat)
      requires w < C && t0 <= C
      requires Lands(interrupt) ==> t0 == 0
      ensures Left(interrupt, t0, w) >= 0
      ensures PerWorker() == 0 ==>
        Added(interrupt, t0, w + 1) == Added(interrupt, t0, w)
        && Left(interrupt, t0, w + 1) == Left(interrupt, t0, w)
      ensures PerWorker() > 0 && Left(interrupt, t0, w) > 0 ==>
        Added(interrupt, t0, w + 1) == Added(interrupt, t0, w)
        && Left(interrupt, t0, w + 1) == Left(interrupt, t0, w) - 1
      ensures PerWorker() > 0 && Left(interrupt, t0, w) == 0 && Lands(interrupt) && interrupt.worker == w ==>
        Added(interrupt, t0, w + 1) == Added(interrupt, t0, w) + interrupt.iteration
        && Left(interrupt, t0, w + 1) == C - 1
      ensures PerWorker() > 0 && Left(interrupt, t0, w) == 0 && !(Lands(interrupt) && interrupt.worker == w) ==>
        Added(interrupt, t0, w + 1) == Added(interrupt, t0, w) + PerWorker()
        && Left(interrupt, t0, w + 1) == 0
    {
      var q := PerWorker();
      assert (w + 1) * q == w * q + q;
      if w >= t0 {
        assert (w + 1 - t0) * q == (w - t0) * q + q;
      }
    }

    /** What all C workers of RunWorkers add up to. */
    lemma WorkersDone(interrupt: Interrupt, t0: nat)
      requires t0 <= C
      requires Lands(interrupt) ==> t0 == 0
      ensures !Lands(interrupt) ==>
        Added(interrupt, t0, C) == (C - t0) * PerWorker()
        && Left(interrupt, t0, C) == if PerWorker() == 0 then t0 else 0
      ensures Lands(interrupt) ==>
        Added(interrupt, t0, C) == interrupt.worker * PerWorker() + interrupt.iteration
        && Left(interrupt, t0, C) == interrupt.worker
      ensures Added(interrupt, t0, C) <= Total()
      ensures Lands(interrupt) ==> Added(interrupt, t0, C) < Total()
    {
      var q := PerWorker();
      if Lands(interrupt) {
        FewerThanFull(C, q, interrupt.worker, interrupt.iteration);
      } else {
        assert (C - t0) * q <= C * q;
      }
    }

    /**
     * Runs the C workers, each given N/C iterations, one after another.
     */
    method RunWorkers(net: nat -> Outcome, interrupt: Interrupt)
      requires Valid() && initialised && !closed
      requires Lands(interrupt) ==> stopTokens == 0
      modifies this`results, this`stopTokens
      ensures Valid()
      ensures |old(results)| <= |results|
      ensures results == old(results) + Sent(net, |old(results)|, |results| - |old(results)|)
      ensures !Lands(interrupt) ==>
        |results| == |old(results)| + (C - old(stopTokens)) * PerWorker()
      ensures !Lands(interrupt) ==>
        stopTokens == if PerWorker() == 0 then old(stopTokens) else 0
      ensures Lands(interrupt) ==>
        |results| == |old(results)| + interrupt.worker * PerWorker() + interrupt.iteration
      ensures Lands(interrupt) ==> stopTokens == interrupt.worker
      ensures |results| <= |old(results)| + Total()
      ensures Lands(interrupt) ==> |results| < |old(results)| + Total()
    {
      ghost var base := |results|;
      ghost var t0 := stopTokens;
      var w := 0;
      while w < C
        invariant w <= C
        invariant Valid()
        invariant base <= |results|
        invariant results == old(results) + Sent(net, base, |results| - base)
        invariant |results| - base == Added(interrupt, t0, w)
        invariant stopTokens == Left(interrupt, t0, w)
      {
        var stopAt := if interrupt.StopAt? && interrupt.worker == w then Some(interrupt.iteration) else None;
        ghost var mid := |results|;
        WorkerStep(interrupt, t0, w);
        RunWorker(N / C, net, stopAt);
        SentSplit(net, base, mid - base, |results| - mid);
        w := w + 1;
      }
      WorkersDone(interrupt, t0);
    }

    /**
     * A whole run: set up the queues, run the workers, close the result queue.
     */
    method Run(net: nat -> Outcome, interrupt: Interrupt)
      requires Valid() && !closed
      requires Lands(interrupt) ==> stopTokens == 0
      modifies this
      ensures Valid() && initialised && closed
      ensures |old(results)| <= |results|
      ensures results == old(results) + Sent(net, |old(results)|, |results| - |old(results)|)
      ensures !Lands(interrupt) && old(stopTokens) == 0 ==> |results| == |old(results)| + Total()
      ensures Lands(interrupt) ==>
        |results| == |old(results)| + interrupt.worker * PerWorker() + interrupt.iteration
      ensures Lands(interrupt) ==> stopTokens == interrupt.worker
      ensures !Lands(interrupt) && old(stopTokens) == 0 ==> stopTokens == 0
      ensures |results| <= |old(results)| + Total()
    {
      Init();
      RunWorkers(net, interrupt);
      var panic := Finish();
      assert panic == None;
    }
  }
}
