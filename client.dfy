/**
 * The part of `SupersetClient` that turns request outcomes into counter
 * updates: the two counters and the ignore set, the per-request classifier
 * `asyncRequest`, the batch of one load round, the query list it is built
 * from, and the zero-guarded error rate.
 */
module Client {
  import opened Wrappers
  import opened Extraction
  import opened Queries
  import opened Outcomes

  /** What `print_error_rate` reports. */
  datatype Report = NoRequestsYet | Rate(errors: nat, total: nat, ratio: real)

  /** Lines 111-116: no division when nothing was counted; otherwise errors over total. */
  function ErrorRate(counters: Tally): (r: Report)
    ensures r.NoRequestsYet? <==> counters.total == 0
    ensures r.Rate? ==> r.errors == counters.errors && r.total == counters.total
    ensures r.Rate? ==> r.ratio * (counters.total as real) == counters.errors as real
  {
    if counters.total == 0 then NoRequestsYet
    else Rate(counters.errors, counters.total, counters.errors as real / counters.total as real)
  }

  /** Pairs each query with the reply the server gives it. */
  function Zip(queries: seq<Query>, replies: seq<Reply>): (r: seq<Request>)
    requires |queries| == |replies|
    ensures |r| == |queries|
    ensures forall k :: 0 <= k < |r| ==> r[k] == Request(queries[k], replies[k])
  {
    if queries == [] then []
    else [Request(queries[0], replies[0])] + Zip(queries[1..], replies[1..])
  }

  class SupersetClient {
    const supersetUrl: string
    var totalRequests: nat
    var errorRequests: nat
    var ignoreErrorTables: set<string>

    /** Lines 20-22: both counters start at zero and nothing is ignored. */
    constructor (supersetUrl: string)
      ensures this.supersetUrl == supersetUrl
      ensures totalRequests == 0 && errorRequests == 0 && ignoreErrorTables == {}
    {
      this.supersetUrl := supersetUrl;
      totalRequests := 0;
      errorRequests := 0;
      ignoreErrorTables := {};
    }

    function Counters(): Tally
      reads this
    {
      Tally(totalRequests, errorRequests)
    }

    /**
     * Lines 72-108: one lookup. The expected name is extracted first; the
     * total is bumped once a response exists; a status other than 200 reads
     * the body's text and calls `error`, whose `sys.exit(77)` is not caught by
     * `except Exception`; every other failure, including a text that cannot be
     * read, is caught and counted as one more error.
     */
    method AsyncRequest(query: Query, reply: Reply) returns (fate: Fate)
      modifies this`totalRequests, this`errorRequests
      ensures Counters() == old(Counters()).Plus(RequestEffect(query, reply, ignoreErrorTables).delta)
      ensures fate == RequestEffect(query, reply, ignoreErrorTables).fate
    {
      fate := Continue;
      var requestTableName := FilterValue(query.q);
      if requestTableName.None? {
        // `.group(1)` on a failed search raises
        errorRequests := errorRequests + 1;
        return;
      }
      var expected := requestTableName.value;
      match reply
      case NoResponse =>
        // the connection raised before a response existed
        errorRequests := errorRequests + 1;
      case Response(status, body) =>
        totalRequests := totalRequests + 1;
        if status != HttpOk {
          if body.Unreadable? {
            // `await response.text()` raises before `error` is reached
            errorRequests := errorRequests + 1;
          } else {
            fate := Exit(ErrorExitCode);
          }
          return;
        }
        match body
        case Unreadable =>
          // `await response.json()` raises
          errorRequests := errorRequests + 1;
        case Unusable =>
          errorRequests := errorRequests + 1;
        case Result(result) =>
          if |result| != 1 {
            errorRequests := errorRequests + 1;
          }
          if |result| == 0 {
            // `result[0]` raises IndexError
            errorRequests := errorRequests + 1;
          } else {
            match result[0]
            case NotRecord =>
              // `.get` raises AttributeError
              errorRequests := errorRequests + 1;
            case Record(responseTableName) =>
              if Some(expected) != responseTableName {
                if expected !in ignoreErrorTables {
                  errorRequests := errorRequests + 1;
                }
              }
          }
    }

    /**
     * Lines 235-243: the whole batch, each request applied in completion
     * order. A fatal status ends the batch (and the process).
     */
    method RunBatch(requests: seq<Request>) returns (fate: Fate)
      modifies this`totalRequests, this`errorRequests
      ensures Counters() == old(Counters()).Plus(BatchEffect(requests, ignoreErrorTables).delta)
      ensures fate == BatchEffect(requests, ignoreErrorTables).fate
    {
      fate := Continue;
      ghost var start := Counters();
      var i := 0;
      while i < |requests|
        invariant 0 <= i <= |requests|
        invariant Counters() == start.Plus(BatchEffect(requests[..i], ignoreErrorTables).delta)
        invariant fate == BatchEffect(requests[..i], ignoreErrorTables).fate == Continue
      {
        ghost var before := BatchEffect(requests[..i], ignoreErrorTables);
        ghost var step := RequestEffect(requests[i].query, requests[i].reply, ignoreErrorTables);
        assert requests[..i + 1][..i] == requests[..i];
        assert BatchEffect(requests[..i + 1], ignoreErrorTables) == Effect(before.delta.Plus(step.delta), step.fate);
        fate := AsyncRequest(requests[i].query, requests[i].reply);
        i := i + 1;
        if fate.Exit? {
          ExitIsFinal(requests, i, ignoreErrorTables);
          return;
        }
      }
      assert requests[..i] == requests;
    }

    /**
     * Lines 220-233: for each dataset in order, `range(1, batchSize)`
     * copies of its lookup query.
     */
    method BuildQueries(datasets: seq<Dataset>, batchSize: int, encode: Option<string> -> string)
      returns (queries: seq<Query>)
      ensures queries == QueriesFor(supersetUrl + DatasetPath, datasets, encode, Reps(batchSize))
    {
      var url := supersetUrl + DatasetPath;
      queries := [];
      var d := 0;
      while d < |datasets|
        invariant 0 <= d <= |datasets|
        invariant queries == QueriesFor(url, datasets[..d], encode, Reps(batchSize))
      {
        var tableName := datasets[d].tableName;
        var i := 1;
        while i < batchSize
          invariant 1 <= i && (i <= batchSize || i == 1)
          invariant queries == QueriesFor(url, datasets[..d], encode, Reps(batchSize))
                               + Repeat(Query(url, encode(tableName)), i - 1)
        {
          queries := queries + [Query(url, encode(tableName))];
          i := i + 1;
        }
        assert datasets[..d + 1][..d] == datasets[..d];
        d := d + 1;
      }
      assert datasets[..d] == datasets;
    }

    /**
     * Lines 217-243: build the round's queries from the listed datasets and
     * run them; `replies` holds the server's reply to each query in turn.
     */
    method ExtressDatasetApi(datasets: seq<Dataset>, batchSize: int, encode: Option<string> -> string,
                             replies: seq<Reply>) returns (fate: Fate)
      requires |replies| == |datasets| * Reps(batchSize)
      modifies this`totalRequests, this`errorRequests
      ensures var requests := Zip(QueriesFor(supersetUrl + DatasetPath, datasets, encode, Reps(batchSize)), replies);
              && Counters() == old(Counters()).Plus(BatchEffect(requests, ignoreErrorTables).delta)
              && fate == BatchEffect(requests, ignoreErrorTables).fate
    {
      var queries := BuildQueries(datasets, batchSize, encode);
      fate := RunBatch(Zip(queries, replies));
    }

    /**
     * Lines 111-116: the report, computed only from the counters. The branches
     * follow the method's own `if`; `ErrorRate` states what the report means.
     */
    method PrintErrorRate() returns (report: Report)
      ensures report == ErrorRate(Counters())
    {
      if totalRequests == 0 {
        report := NoRequestsYet;
      } else {
        report := Rate(errorRequests, totalRequests, errorRequests as real / totalRequests as real);
      }
    }
  }
}
