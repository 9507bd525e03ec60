/**
 * What one lookup request does to the client's two counters
 * (`asyncRequest`), and what a whole batch of them does.
 *
 * A request's fate depends on how far it gets: the filter value is
 * extracted before anything is sent, `total_requests` is bumped as soon as a
 * response exists, a status other than 200 ends the process once its text
 * has been read for the message, and every exception raised on the way is
 * caught and counted as one error.
 */
module Outcomes {
  import opened Wrappers
  import opened Extraction
  import opened Queries

  /** The status `error` passes to `sys.exit`. */
  const ErrorExitCode: int := 77

  /** The only status `asyncRequest` accepts. */
  const HttpOk: int := 200

  /**
   * One element of the response's `result` list: a record whose `table_name`
   * is a string or missing (None; a value of another type compares unequal
   * in the same way), or something without `.get`, on which line 94 raises.
   */
  datatype Row = Record(tableName: Option<string>) | NotRecord

  /**
   * The body of a response: one that cannot be read at all (reading it as
   * text or as JSON raises, as a dropped connection or an undecodable charset
   * would make it), one that is read but whose JSON decoding or
   * `len(result)` raises, or a usable `result` list.
   */
  datatype Body = Unreadable | Unusable | Result(rows: seq<Row>)

  /** What the server does with a request: no response at all (the
      connection raised), or a response with a status and a body. */
  datatype Reply = NoResponse | Response(status: int, body: Body)

  /** A query of the batch together with the reply it receives. */
  datatype Request = Request(query: Query, reply: Reply)

  /** Whether the process goes on, or stops with an exit status. */
  datatype Fate = Continue | Exit(code: int)

  /** The counters `total_requests` and `error_requests`, or changes to them. */
  datatype Tally = Tally(total: nat, errors: nat) {
    function Plus(other: Tally): Tally {
      Tally(total + other.total, errors + other.errors)
    }
  }

  /** What one request or one batch adds to the counters, and its fate. */
  datatype Effect = Effect(delta: Tally, fate: Fate)

  const NoChange: Tally := Tally(0, 0)

  /** Line 90-92: one error when `result` does not hold exactly one element. */
  function LengthErrors(rows: seq<Row>): (r: nat)
    ensures r <= 1
    ensures r == 0 <==> |rows| == 1
  {
    if |rows| != 1 then 1 else 0
  }

  /**
   * Lines 94-102 for the first element: one error when it has no `.get`
   * (caught by the `except`), one when its `table_name` differs from the
   * expected name and that name is not ignored.
   */
  function NameErrors(expected: string, first: Row, ignore: set<string>): (r: nat)
    ensures r <= 1
    // no error exactly for a record naming the expected table, or for an ignored one
    ensures r == 0 <==> first.Record? && (first.tableName == Some(expected) || expected in ignore)
    // the ignore list never excuses an element that has no `.get`
    ensures first.NotRecord? ==> r == 1
  {
    match first
    case NotRecord => 1
    case Record(name) => if name != Some(expected) && expected !in ignore then 1 else 0
  }

  /**
   * The errors a 200 response adds: one when the body is unreadable or
   * unusable; otherwise the length check, then either the `IndexError` of
   * `result[0]` on an empty list (caught, one more error) or the name check.
   */
  function BodyErrors(expected: string, body: Body, ignore: set<string>): (r: nat)
    ensures r <= 2
    // a body that cannot be read or decoded is one caught exception
    ensures !body.Result? ==> r == 1
    // only a single record naming the table (or an ignored one) is free
    ensures r == 0 <==> body.Result? && |body.rows| == 1 && body.rows[0].Record?
                        && (body.rows[0].tableName == Some(expected) || expected in ignore)
    // an empty list fails the length check and then raises at `result[0]`
    ensures body == Result([]) ==> r == 2
  {
    match body
    case Unreadable => 1
    case Unusable => 1
    case Result(rows) =>
      LengthErrors(rows) + (if rows == [] then 1 else NameErrors(expected, rows[0], ignore))
  }

  /** Lines 72-108: the effect of one `asyncRequest` call. */
  function RequestEffect(query: Query, reply: Reply, ignore: set<string>): (e: Effect)
    // the total moves exactly when a name was extracted and a response arrived
    ensures e.delta.total == (if FilterValue(query.q).Some? && reply.Response? then 1 else 0)
    // the process stops exactly on a response whose status is not 200 and whose
    // text could be read for the message, with status 77
    ensures e.fate.Exit? <==> && FilterValue(query.q).Some? && reply.Response?
                              && reply.status != HttpOk && !reply.body.Unreadable?
    ensures e.fate.Exit? ==> e.fate.code == ErrorExitCode && e.delta.errors == 0
    // a non-200 response whose text cannot be read is caught like any exception
    ensures FilterValue(query.q).Some? && reply.Response? && reply.status != HttpOk && reply.body.Unreadable?
            ==> e == Effect(Tally(1, 1), Continue)
    // a request that never got a response counts as exactly one error
    ensures e.delta.total == 0 ==> e.delta.errors == 1
    ensures e.delta.errors <= 2
  {
    match FilterValue(query.q)
    case None => Effect(Tally(0, 1), Continue)
    case Some(expected) =>
      match reply
      case NoResponse => Effect(Tally(0, 1), Continue)
      case Response(status, body) =>
        if status != HttpOk then
          if body.Unreadable? then Effect(Tally(1, 1), Continue)
          else Effect(Tally(1, 0), Exit(ErrorExitCode))
        else Effect(Tally(1, BodyErrors(expected, body, ignore)), Continue)
  }

  function Outcome(r: Request, ignore: set<string>): Effect {
    RequestEffect(r.query, r.reply, ignore)
  }

  /**
   * The batch run one request after another in completion order: the deltas
   * add up until the first request that ends the process.
   */
  function BatchEffect(requests: seq<Request>, ignore: set<string>): (e: Effect)
    ensures e.delta.total <= |requests| && e.delta.errors <= 2 * |requests|
    ensures e.fate.Exit? ==> e.fate.code == ErrorExitCode
    ensures requests == [] ==> e == Effect(NoChange, Continue)
    decreases |requests|
  {
    if requests == [] then Effect(NoChange, Continue)
    else
      var before := BatchEffect(requests[..|requests| - 1], ignore);
      if before.fate.Exit? then before
      else
        var last := Outcome(requests[|requests| - 1], ignore);
        Effect(before.delta.Plus(last.delta), last.fate)
  }

  /** The sum of `delta` over `xs`. */
  function Sum<T>(xs: seq<T>, delta: T -> Tally): Tally
    decreases |xs|
  {
    if xs == [] then NoChange
    else Sum(xs[..|xs| - 1], delta).Plus(delta(xs[|xs| - 1]))
  }

  /** What each request adds to the counters, as if none of them ended the process. */
  function Deltas(ignore: set<string>): Request -> Tally {
    r => Outcome(r, ignore).delta
  }

  /** No request of the batch ends the process. */
  ghost predicate NonFatal(requests: seq<Request>, ignore: set<string>) {
    forall k :: 0 <= k < |requests| ==> Outcome(requests[k], ignore).fate == Continue
  }

  /** The requests that were sent and answered. */
  function Answered(requests: seq<Request>): nat
    decreases |requests|
  {
    if requests == [] then 0
    else
      var r := requests[|requests| - 1];
      Answered(requests[..|requests| - 1]) + (if FilterValue(r.query.q).Some? && r.reply.Response? then 1 else 0)
  }

  /** A valid request: the name is found, the status is 200 and the only row names it. */
  ghost predicate Matching(r: Request) {
    && FilterValue(r.query.q).Some?
    && r.reply == Response(HttpOk, Result([Record(FilterValue(r.query.q))]))
  }

  // ---------------------------------------------------------------------------
  // One request
  // ---------------------------------------------------------------------------

  /** A query with no extractable name costs one error and never reaches the server. */
  lemma ExtractionFailureIsOneError(query: Query, reply: Reply, ignore: set<string>)
    requires FilterValue(query.q).None?
    ensures RequestEffect(query, reply, ignore) == Effect(Tally(0, 1), Continue)
  {
  }

  /**
   * The length check is not exempted by the ignore list: a list of any other
   * length than one always costs an error, and an empty one costs two (the
   * check, then the caught `IndexError` of `result[0]`).
   */
  lemma LengthCheckAlwaysCounts(query: Query, rows: seq<Row>, ignore: set<string>)
    requires FilterValue(query.q).Some?
    requires |rows| != 1
    ensures RequestEffect(query, Response(HttpOk, Result(rows)), ignore).delta.total == 1
    ensures RequestEffect(query, Response(HttpOk, Result(rows)), ignore).delta.errors >= 1
    ensures rows == [] ==> RequestEffect(query, Response(HttpOk, Result(rows)), ignore).delta == Tally(1, 2)
  {
  }

  /**
   * A single-record answer is accepted exactly when it names the expected
   * table, or the expected table is in the ignore list.
   */
  lemma SingleRecordVerdict(query: Query, name: Option<string>, ignore: set<string>)
    requires FilterValue(query.q).Some?
    ensures var expected := FilterValue(query.q).value;
            (RequestEffect(query, Response(HttpOk, Result([Record(name)])), ignore).delta.errors == 0
             <==> name == Some(expected) || expected in ignore)
  {
  }

  /**
   * The ignore list only silences the name check: with more rows than one,
   * a mismatching first record costs one error if its name is ignored and two
   * if it is not.
   */
  lemma IgnoreListSilencesNameCheckOnly(query: Query, name: Option<string>, rest: seq<Row>, ignore: set<string>)
    requires FilterValue(query.q).Some? && name != FilterValue(query.q)
    requires rest != []
    ensures var e := RequestEffect(query, Response(HttpOk, Result([Record(name)] + rest)), ignore);
            e.delta.errors == if FilterValue(query.q).value in ignore then 1 else 2
  {
  }

  /**
   * `error_requests` can overtake `total_requests`: a two-row answer whose
   * first record names another table adds one request and two errors.
   */
  lemma ErrorsCanExceedTotal()
    ensures RequestEffect(Query("u", "value:x"), Response(HttpOk, Result([Record(Some("y")), Record(Some("x"))])), {}).delta
            == Tally(1, 2)
  {
    assert AllNameChars("x");
    ExtractEmbedded("", false, "x", "");
    assert "" + Key + "" + "x" + "" == "value:x";
  }

  // ---------------------------------------------------------------------------
  // A batch
  // ---------------------------------------------------------------------------

  lemma {:induction false} SumAppend<T>(a: seq<T>, b: seq<T>, delta: T -> Tally)
    ensures Sum(a + b, delta) == Sum(a, delta).Plus(Sum(b, delta))
    decreases |b|
  {
    if b == [] {
      assert a + b == a;
    } else {
      var n := |b| - 1;
      var ab := a + b;
      assert ab[..|ab| - 1] == a + b[..n];
      assert ab[|ab| - 1] == b[n];
      SumAppend(a, b[..n], delta);
    }
  }

  /** Taking one element out of a sequence takes its delta out of the sum. */
  lemma SumRemove<T>(left: seq<T>, x: T, right: seq<T>, delta: T -> Tally)
    ensures Sum(left + [x] + right, delta) == Sum(left + right, delta).Plus(delta(x))
  {
    var l, r, d := Sum(left, delta), Sum(right, delta), delta(x);
    calc {
      Sum(left + [x] + right, delta);
    == { SumAppend(left + [x], right, delta); }
      Sum(left + [x], delta).Plus(r);
    == { SumAppend(left, [x], delta); SumSingle(x, delta); }
      l.Plus(d).Plus(r);
    == 
      l.Plus(r).Plus(d);
    == { SumAppend(left, right, delta); }
      Sum(left + right, delta).Plus(d);
    }
  }

  lemma SumSingle<T>(x: T, delta: T -> Tally)
    ensures Sum([x], delta) == delta(x)
  {
    assert [x][..0] == [];
  }

  /** Taking one element out of both sides keeps two multisets equal. */
  lemma MultisetRemove<T>(a: seq<T>, b: seq<T>, k: nat)
    requires multiset(a) == multiset(b) && a != []
    requires k < |b| && b[k] == a[|a| - 1]
    ensures multiset(a[..|a| - 1]) == multiset(b[..k] + b[k + 1..])
  {
    var n := |a| - 1;
    var x := a[n];
    assert a == a[..n] + [x];
    assert b == b[..k] + [x] + b[k + 1..];
    assert multiset(a[..n]) == multiset(a) - multiset{x};
    assert multiset(b[..k] + b[k + 1..]) == multiset(b) - multiset{x};
  }

  /** The sum of the deltas does not depend on the order of the requests. */
  lemma {:induction false} SumPermutation<T>(a: seq<T>, b: seq<T>, delta: T -> Tally)
    requires multiset(a) == multiset(b)
    ensures Sum(a, delta) == Sum(b, delta)
    decreases |a|
  {
    if a != [] {
      var n := |a| - 1;
      assert a[n] in multiset(b);
      var k :| 0 <= k < |b| && b[k] == a[n];
      MultisetRemove(a, b, k);
      SumPermutation(a[..n], b[..k] + b[k + 1..], delta);
      SumRemove(b[..k], b[k], b[k + 1..], delta);
      assert b == b[..k] + [b[k]] + b[k + 1..];
    }
  }

  /** Without a fatal status, a batch adds up every request's delta. */
  lemma {:induction false} NonFatalBatchIsSum(requests: seq<Request>, ignore: set<string>)
    requires NonFatal(requests, ignore)
    ensures BatchEffect(requests, ignore) == Effect(Sum(requests, Deltas(ignore)), Continue)
    decreases |requests|
  {
    if requests != [] {
      var init := requests[..|requests| - 1];
      assert NonFatal(init, ignore) by {
        forall k | 0 <= k < |init| ensures Outcome(init[k], ignore).fate == Continue {
          assert init[k] == requests[k];
        }
      }
      NonFatalBatchIsSum(init, ignore);
      assert Outcome(requests[|requests| - 1], ignore).fate == Continue;
    }
  }

  /**
   * The final counters of a batch that completes do not depend on the order in
   * which its requests complete.
   */
  lemma CompletionOrderIrrelevant(a: seq<Request>, b: seq<Request>, ignore: set<string>)
    requires multiset(a) == multiset(b)
    requires NonFatal(a, ignore)
    ensures NonFatal(b, ignore)
    ensures BatchEffect(a, ignore) == BatchEffect(b, ignore)
  {
    forall k | 0 <= k < |b| ensures Outcome(b[k], ignore).fate == Continue {
      assert b[k] in multiset(a);
    }
    NonFatalBatchIsSum(a, ignore);
    NonFatalBatchIsSum(b, ignore);
    SumPermutation(a, b, Deltas(ignore));
  }

  /**
   * In a batch that completes, every answered request is counted once in the
   * total, and every request that was not answered costs an error.
   */
  lemma {:induction false} EveryRequestAccounted(requests: seq<Request>, ignore: set<string>)
    requires NonFatal(requests, ignore)
    ensures BatchEffect(requests, ignore).delta.total == Answered(requests)
    ensures BatchEffect(requests, ignore).delta.errors >= |requests| - Answered(requests)
    decreases |requests|
  {
    if requests != [] {
      var init := requests[..|requests| - 1];
      assert NonFatal(init, ignore) by {
        forall k | 0 <= k < |init| ensures Outcome(init[k], ignore).fate == Continue {
          assert init[k] == requests[k];
        }
      }
      EveryRequestAccounted(init, ignore);
      NonFatalBatchIsSum(init, ignore);
      assert Outcome(requests[|requests| - 1], ignore).fate == Continue;
    }
  }

  /** K requests that all get their own table back leave K requests and no error. */
  lemma {:induction false} AllMatchingBatch(requests: seq<Request>, ignore: set<string>)
    requires forall k :: 0 <= k < |requests| ==> Matching(requests[k])
    ensures BatchEffect(requests, ignore) == Effect(Tally(|requests|, 0), Continue)
    decreases |requests|
  {
    if requests != [] {
      AllMatchingBatch(requests[..|requests| - 1], ignore);
      assert Matching(requests[|requests| - 1]);
    }
  }

  /** A batch ends the process exactly when one of its requests does. */
  lemma {:induction false} ExitIffFatalRequest(requests: seq<Request>, ignore: set<string>)
    ensures BatchEffect(requests, ignore).fate.Exit? <==> !NonFatal(requests, ignore)
    decreases |requests|
  {
    if requests != [] {
      var n := |requests| - 1;
      var init := requests[..n];
      var before := BatchEffect(init, ignore);
      var last := Outcome(requests[n], ignore).fate;
      ExitIffFatalRequest(init, ignore);
      if before.fate.Exit? {
        assert BatchEffect(requests, ignore) == before;
        var k :| 0 <= k < |init| && Outcome(init[k], ignore).fate != Continue;
        assert requests[k] == init[k];
      } else {
        assert BatchEffect(requests, ignore).fate == last;
        if last == Continue {
          forall k | 0 <= k < |requests| ensures Outcome(requests[k], ignore).fate == Continue {
            if k < n {
              assert requests[k] == init[k];
            }
          }
        }
      }
    }
  }

  /**
   * Whether a batch ends the process, and with which status, does not depend
   * on the order in which its requests complete.
   */
  lemma ExitDoesNotDependOnOrder(a: seq<Request>, b: seq<Request>, ignore: set<string>)
    requires multiset(a) == multiset(b)
    ensures BatchEffect(a, ignore).fate == BatchEffect(b, ignore).fate
  {
    if NonFatal(a, ignore) {
      CompletionOrderIrrelevant(a, b, ignore);
    } else if NonFatal(b, ignore) {
      CompletionOrderIrrelevant(b, a, ignore);
    } else {
      ExitIffFatalRequest(a, ignore);
      ExitIffFatalRequest(b, ignore);
    }
  }

  /**
   * The queries the round builds carry their dataset's name to the server and
   * back: when the encoding writes a name as a `table_name` filter, the name
   * extracted from copy `i` of dataset `d`'s block is that dataset's name.
   */
  lemma BuiltQueryNamesItsDataset(url: string, datasets: seq<Dataset>, encode: Option<string> -> string,
                                  n: nat, d: nat, i: nat, quoted: bool)
    requires d < |datasets| && i < n
    requires datasets[d].tableName.Some?
    requires datasets[d].tableName.value != [] && AllNameChars(datasets[d].tableName.value)
    requires encode(datasets[d].tableName) == FilterQuery(quoted, datasets[d].tableName.value)
    ensures d * n + i < |QueriesFor(url, datasets, encode, n)|
    ensures FilterValue(QueriesFor(url, datasets, encode, n)[d * n + i].q) == datasets[d].tableName
  {
    QueriesForAt(url, datasets, encode, n, d, i);
    FilterQueryRoundTrip(quoted, datasets[d].tableName.value);
  }

  /**
   * The first request that ends the process (a status other than 200 whose
   * text was read) ends the batch: the
   * counters keep what the requests before it added, plus its own bump of the
   * total, and the process exits with status 77.
   */
  lemma {:induction false} FatalRequestEndsBatch(requests: seq<Request>, k: nat, ignore: set<string>)
    requires k < |requests|
    requires NonFatal(requests[..k], ignore)
    requires Outcome(requests[k], ignore).fate.Exit?
    ensures BatchEffect(requests, ignore) == Effect(Sum(requests[..k + 1], Deltas(ignore)), Exit(ErrorExitCode))
    decreases |requests|
  {
    if k + 1 == |requests| {
      assert requests[..k] == requests[..|requests| - 1];
      NonFatalBatchIsSum(requests[..k], ignore);
      assert requests[..k + 1] == requests;
    } else {
      var init := requests[..|requests| - 1];
      assert init[..k] == requests[..k] && init[k] == requests[k];
      FatalRequestEndsBatch(init, k, ignore);
      assert init[..k + 1] == requests[..k + 1];
    }
  }

  /** Once a prefix of the batch has ended the process, the rest changes nothing. */
  lemma {:induction false} ExitIsFinal(requests: seq<Request>, i: nat, ignore: set<string>)
    requires i <= |requests|
    requires BatchEffect(requests[..i], ignore).fate.Exit?
    ensures BatchEffect(requests, ignore) == BatchEffect(requests[..i], ignore)
    decreases |requests| - i
  {
    if i < |requests| {
      assert requests[..i + 1][..i] == requests[..i];
      ExitIsFinal(requests, i + 1, ignore);
    } else {
      assert requests[..i] == requests;
    }
  }
}
