// Whole runs of the model on concrete configurations: what a caller of the
// engine can conclude from the contracts of Requester.Work alone.

module Scenarios {
  import opened Requester

  function Template(): Request
  {
    Request("GET", "http://localhost:8080/", "HTTP/1.1", "localhost:8080",
            map["User-Agent" := ["hey/0.0.1"], "Content-Type" := ["text/html"]],
            NoBody, 0)
  }

  /** N = 100, C = 10, every request answered: exactly 100 records, all successes. */
  method EvenSplit() returns (rs: seq<Result>)
    ensures |rs| == 100
    ensures forall r :: r in rs ==> r == Result(None, 200, -1)
  {
    var w := new Work(Template(), [], 100, 10);
    var net := k => Responded(200, -1);
    w.Run(net, NoStop);
    rs := w.results;
    SentConstant(net, Responded(200, -1), 0, |rs|);
  }

  /** N = 10, C = 3: three workers of three iterations, so 9 records, never 10. */
  method UnevenSplit() returns (count: nat)
    ensures count == 9
  {
    var w := new Work(Template(), [], 10, 3);
    w.Run(k => Responded(200, 11), NoStop);
    count := |w.results|;
  }

  /** A network that always fails: every record carries the error and no status or size. */
  method AllFail() returns (rs: seq<Result>, closed: bool)
    ensures |rs| == 9 && closed
    ensures forall r :: r in rs ==> r.err == Some("connection refused") && r.statusCode == 0 && r.contentLength == 0
  {
    var w := new Work(Template(), [], 10, 3);
    var net := k => Failed("connection refused");
    w.Run(net, NoStop);
    rs, closed := w.results, w.closed;
    SentConstant(net, Failed("connection refused"), 0, |rs|);
  }

  /**
   * N = 10, C = 2, Stop landing before the third iteration of the second worker:
   * the first worker sends 5, the second 2, and the one token nobody takes stays queued.
   */
  method StopMidRun() returns (count: nat, leftover: nat)
    ensures count == 7 && leftover == 1
  {
    var w := new Work(Template(), [], 10, 2);
    w.Run(k => Responded(200, 0), StopAt(1, 2));
    count, leftover := |w.results|, w.stopTokens;
  }

  /** Stop before the workers start: each worker takes one token and sends nothing. */
  method StopBeforeRun() returns (count: nat, leftover: nat)
    ensures count == 0 && leftover == 0
  {
    var w := new Work(Template(), [], 10, 2);
    w.Init();
    w.Stop();
    w.RunWorkers(k => Responded(200, 0), NoStop);
    count, leftover := |w.results|, w.stopTokens;
  }
}
