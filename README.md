# Request counters of the Superset API load test

`pruebas/probar_api.py` is a load-testing script for a Superset server. It
lists the server's datasets and builds a batch of identical lookup queries
per dataset. It sends them all at once and checks that each answer names the
dataset that was asked for. `SupersetClient` keeps two counters while it
does this: `total_requests` and `error_requests`. This project models the
code that turns each request's outcome into counter updates, and proves what
those updates are.

- `wrappers.dfy`: the `Option` type.
- `extraction.dfy` (module `Extraction`): the regular expression of line 79.
  It pulls the expected table name out of the Rison-encoded `q` parameter.
  `FilterValue` is the extractor. `Matches` and `LeftmostMatch` are an
  independent, declarative reading of the pattern. The lemmas prove the two
  agree, and that a value written into a query string is recovered.
- `queries.dfy` (module `Queries`): the query list of a load round, with
  `range(1, batch_size)` copies per dataset.
- `outcomes.dfy` (module `Outcomes`): the effect of one request on the
  counters (`RequestEffect`) and of a whole batch (`BatchEffect`). The
  lemmas are about both.
- `client.dfy` (module `Client`): class `SupersetClient`. Its fields are the
  two counters and the ignore set. Its methods update them in place, and
  each method's contract ties the new state to the functions above.

How a request is counted (lines 72-108):

1. If the filter value cannot be extracted, `.group(1)` raises. The
   `except` adds one error. Nothing is sent and the total is not touched.
2. If the connection raises before a response exists, the result is the same:
   one error and no change to the total.
3. Once a response exists, the total goes up by exactly one.
4. If the status is not 200, the body's text is read for the message and
   `error` calls `sys.exit(77)`. That raises `SystemExit`, which
   `except Exception` does not catch, so the process ends with status 77.
   This is the `Exit(77)` fate. No counter changes after the bump of the
   total. If reading that text raises (an `Unreadable` body), `error` is
   never reached. The `except` adds one error and the batch goes on.
5. If the body of a 200 response cannot be read or decoded, or its `result`
   is unusable, the `except` adds one error.
6. A `result` whose length is not one adds an error. An empty list then also
   raises at `result[0]`, and the `except` adds a second error.
7. If the first record's `table_name` differs from the expected name, an
   error is added, unless the expected name is in `ignore_error_tables`.

`asyncio.gather` runs every request on one thread. No `+=` on a counter has
an `await` inside it. So a batch is modelled as the requests applied one
after another in completion order. `CompletionOrderIrrelevant` proves that
when no request is fatal, the final counters do not depend on that order.

Some consequences of the code that are easy to miss:

- `error_requests` can exceed `total_requests`. A failed extraction or
  connection adds an error and no request. An empty or two-row answer with a
  wrong name adds two errors for one request. `ErrorsCanExceedTotal` exhibits
  the second case.
- The character class of line 79 has no space, so `value:'Sales Data'`
  yields `Sales` (`SpaceEndsValueExample`).
- The total is bumped only once a response exists. A request that fails
  before that costs an error and is not counted (`EveryRequestAccounted`).
- Only `table_name` is compared. There is no dashboard lookup, and
  `extress_dataset_api` runs its batch once, with no loop over rounds.

## Model

| member | source | states |
|---|---|---|
| `Extraction.NameRun` | pruebas/probar_api.py:79 | the captured run is a prefix of the text after `value:` and the optional quote, holds only `[0-9a-zA-Z:_\-.]`, and cannot be extended (the greedy `+`) |
| `Extraction.NameRunUnique` | pruebas/probar_api.py:79 | any maximal run of class characters at the start of a string is exactly the one the extractor captures |
| `Extraction.Search` | pruebas/probar_api.py:79 | a value found from a position is a non-empty run of class characters that fits after a `value:` in the rest of the string; `SearchFindsFirst` and `SearchMissesOnlyWithoutMatch` state which position it comes from |
| `Extraction.FilterValue` | pruebas/probar_api.py:79 | the extracted name is non-empty and holds only `[0-9a-zA-Z:_\-.]`; `FilterValueSound` and `LeftmostIsFilterValue` prove it is exactly the leftmost match's group |
| `Extraction.MatchAt` | pruebas/probar_api.py:79 | trying the pattern at one position yields a value only where `value:`, an optional quote and a maximal non-empty run really stand there |
| `Extraction.MatchAtComplete` | pruebas/probar_api.py:79 | wherever the pattern matches, the attempt at that position finds that value, whether or not a quote comes first |
| `Extraction.MatchAtMiss` | pruebas/probar_api.py:79 | a failed attempt at a position means no value matches there |
| `Extraction.MatchesUnique` | pruebas/probar_api.py:79 | at one position the pattern captures at most one value |
| `Extraction.SearchFindsFirst` | pruebas/probar_api.py:79 | a value found by scanning from a position comes from the first position at or after it where the pattern matches |
| `Extraction.SearchMissesOnlyWithoutMatch` | pruebas/probar_api.py:79 | scanning finds nothing only if the pattern matches at no position at or after the start |
| `Extraction.FilterValueSound` | pruebas/probar_api.py:79 | `re.search(...).group(1)`: a result is the leftmost match's group; no result means the pattern matches nowhere |
| `Extraction.LeftmostIsFilterValue` | pruebas/probar_api.py:79 | conversely, the leftmost match's value is always what the extractor returns |
| `Extraction.ExtractEmbedded` | pruebas/probar_api.py:79 | round trip: a non-empty class-character value written after the first `value:`, bare or quoted, and ended by a non-class character, is recovered exactly |
| `Extraction.FilterQuery` | pruebas/probar_api.py:227-231 | in a one-filter `table_name` query the filter's `value:` follows the fixed prefix, and no `value:` starts before it |
| `Extraction.PrefixHasNoKey` | pruebas/probar_api.py:227-231 | no `value:` starts inside the prefix `(filters:!((col:table_name,opr:eq,` |
| `Extraction.FilterQueryRoundTrip` | pruebas/probar_api.py:79 | a `table_name` filter query in Rison form, bare or quoted, yields back its value |
| `Extraction.NoKeyNoValue` | pruebas/probar_api.py:79 | a string without `value:` yields nothing |
| `Extraction.BareValueExample` | pruebas/probar_api.py:79 | `value:ficheros)` yields `ficheros` |
| `Extraction.QuotedValueExample` | pruebas/probar_api.py:79 | `value:'ficheros'` yields `ficheros`, without the quotes |
| `Extraction.SpaceEndsValueExample` | pruebas/probar_api.py:79 | `value:'Sales Data'` yields `Sales`: the run stops at the space |
| `Extraction.EmptyQuotedValueExample` | pruebas/probar_api.py:79 | `value:''` yields nothing: no class character follows, with or without the quote |
| `Queries.Reps` | pruebas/probar_api.py:223 | `range(1, batch_size)` has `batch_size - 1` values, and none when `batch_size <= 1` |
| `Queries.QueriesFor` | pruebas/probar_api.py:220-233 | the query list has `Reps(batch_size)` entries per dataset |
| `Queries.QueriesForAt` | pruebas/probar_api.py:220-233 | copy `i` of dataset `d`'s block is dataset `d`'s lookup: same URL, same encoded filter value, in dataset order |
| `Queries.DefaultBatchIsNinePerDataset` | pruebas/probar_api.py:217-223 | the default `batch_size = 10` gives nine queries per dataset |
| `Outcomes.LengthErrors` | pruebas/probar_api.py:90-92 | a `result` costs no error for its length exactly when it holds one element, and one otherwise |
| `Outcomes.NameErrors` | pruebas/probar_api.py:94-102 | the first element costs no error exactly when it is a record naming the expected table or that name is ignored; an element without `.get` always costs one |
| `Outcomes.BodyErrors` | pruebas/probar_api.py:87-108 | a 200 body costs at most two errors; an unreadable or unusable one costs one, an empty list two, and only a single matching (or ignored) record none |
| `Outcomes.RequestEffect` | pruebas/probar_api.py:72-108 | one request bumps the total exactly when a name was extracted and a response arrived. It exits with 77 exactly on a non-200 status whose text was read, adding no error; a non-200 status whose text cannot be read costs one request and one error and goes on. A request without a response costs exactly one error, and no request costs more than two |
| `Outcomes.BatchEffect` | pruebas/probar_api.py:235-243 | a batch of n requests adds at most n to the total and at most 2n errors, and it can only stop with status 77 |
| `Outcomes.ExtractionFailureIsOneError` | pruebas/probar_api.py:79-108 | a failed extraction adds one error and leaves the total alone, whatever the server would have replied |
| `Outcomes.LengthCheckAlwaysCounts` | pruebas/probar_api.py:90-108 | a `result` whose length is not one always costs an error, ignore set or not; an empty one costs two errors and one request |
| `Outcomes.SingleRecordVerdict` | pruebas/probar_api.py:94-102 | a one-record answer costs nothing exactly when its `table_name` equals the expected name or that name is ignored |
| `Outcomes.IgnoreListSilencesNameCheckOnly` | pruebas/probar_api.py:90-102 | with several rows and a mismatching first record, an ignored name costs one error (the length check) and any other name costs two |
| `Outcomes.ErrorsCanExceedTotal` | pruebas/probar_api.py:83-102 | a two-row answer whose first record mismatches adds one request and two errors, so the errors can overtake the total |
| `Outcomes.SumPermutation` | pruebas/probar_api.py:235-243 | the sum of the requests' deltas does not depend on their order |
| `Outcomes.NonFatalBatchIsSum` | pruebas/probar_api.py:235-243 | a batch with no fatal status adds exactly the sum of its requests' deltas and completes |
| `Outcomes.CompletionOrderIrrelevant` | pruebas/probar_api.py:235-243 | two completion orders of the same non-fatal batch leave the same counters |
| `Outcomes.EveryRequestAccounted` | pruebas/probar_api.py:79-108 | in a completed batch the total counts exactly the answered requests, and each unanswered request costs an error |
| `Outcomes.AllMatchingBatch` | pruebas/probar_api.py:83-102 | K requests that each get back a single record naming their own table add K to the total and no error |
| `Outcomes.ExitIffFatalRequest` | pruebas/probar_api.py:83-86 | a batch ends the process exactly when one of its requests does |
| `Outcomes.ExitDoesNotDependOnOrder` | pruebas/probar_api.py:235-243 | whether a batch ends the process, and with which status, is the same in every completion order |
| `Outcomes.BuiltQueryNamesItsDataset` | pruebas/probar_api.py:220-233 | when the encoding writes each name as a `table_name` filter, the name extracted from every built query is its own dataset's name |
| `Outcomes.FatalRequestEndsBatch` | pruebas/probar_api.py:83-86 | at the first request that ends the process the batch ends with status 77. The counters keep what the earlier requests added, plus that request's bump of the total |
| `Outcomes.ExitIsFinal` | pruebas/probar_api.py:84-86 | after the exit, the rest of the batch changes nothing |
| `Client.ErrorRate` | pruebas/probar_api.py:111-116 | with a total of 0 it reports "no requests" and does not divide. Otherwise it reports errors and total, and a ratio that times the total gives the errors |
| `Client.Zip` | pruebas/probar_api.py:235-242 | the batch pairs query k with reply k, for every k and nothing else |
| `Client.SupersetClient.constructor` | pruebas/probar_api.py:20-22 | the counters start at 0 and the ignore set is empty |
| `Client.SupersetClient.AsyncRequest` | pruebas/probar_api.py:72-108 | the fields move by exactly `RequestEffect`'s delta, and the method returns its fate |
| `Client.SupersetClient.RunBatch` | pruebas/probar_api.py:235-243 | after the batch, the fields equal their old values plus `BatchEffect`'s delta, and the method returns its fate |
| `Client.SupersetClient.BuildQueries` | pruebas/probar_api.py:220-233 | the nested loops build exactly `QueriesFor(url, datasets, encode, Reps(batch_size))` |
| `Client.SupersetClient.ExtressDatasetApi` | pruebas/probar_api.py:217-243 | a round adds to the counters the effect of the built queries paired with their replies |
| `Client.SupersetClient.PrintErrorRate` | pruebas/probar_api.py:111-116 | the report is `ErrorRate` of the current counters |

## Left out

- Authentication and listing calls (`get_access_token`, `get_csrf_token`, `get_cookie_from_login`, `get_guest_token`, `me`, `list_dashboards`, `get_dataset_by_name`, `list_datasets`) and `main`: plain HTTP I/O. The listed datasets are a parameter of `ExtressDatasetApi`.
- HTTP traffic: the server's reply to each query is an input (`Reply`). Connection failures, bodies that cannot be read, bodies that cannot be decoded, and a `result` on which `len` raises are abstract outcomes. The headers, cookies and `params` sent are not modelled.
- `prison.dumps` (Rison encoding, an external library) is the `encode` parameter of `BuildQueries`. The extractor takes `q` as a given string.
- `aiohttp.ClientSession`, `asyncio.gather` and the coroutines: the batch is a sequential loop in completion order. If a status is fatal, the process ends. Requests in flight at that moment are not modelled; the model stops at the fatal request.
- `error` (lines 24-26) is not a separate member. Its `sys.exit(77)` is the `Exit(77)` fate that `AsyncRequest` returns. The message it prints to stderr is left out.
- `print` diagnostics, the value `asyncRequest` returns (never used by the caller), and the floating-point rate with its `:.2%` formatting. `ErrorRate` gives the exact ratio as a real.
- A `table_name` that is not a string is treated like a missing one: it never equals the expected name.
- Configuration through `from auth import *`.
