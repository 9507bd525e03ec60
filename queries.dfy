/**
 * The query list of one load round (`extress_dataset_api`): every dataset's
 * lookup query, repeated once per value of `range(1, batch_size)`.
 */
module Queries {
  import opened Wrappers

  /** Path of the dataset listing endpoint, appended to the server URL. */
  const DatasetPath: string := "/api/v1/dataset"

  /** The batch size `extress_dataset_api` uses when none is given. */
  const DefaultBatchSize: int := 10

  /** A dataset record as listed by the server; only its `table_name` is read. */
  datatype Dataset = Dataset(tableName: Option<string>)

  /** One lookup: the URL and the encoded `q` parameter. */
  datatype Query = Query(url: string, q: string)

  /** The number of values `range(1, batchSize)` yields. */
  function Reps(batchSize: int): (n: nat)
    ensures batchSize >= 1 ==> n + 1 == batchSize
    ensures batchSize <= 1 ==> n == 0
  {
    if batchSize <= 1 then 0 else batchSize - 1
  }

  /** `n` copies of `x`. */
  function Repeat<T>(x: T, n: nat): (r: seq<T>)
    ensures |r| == n
    ensures forall k :: 0 <= k < n ==> r[k] == x
  {
    if n == 0 then [] else Repeat(x, n - 1) + [x]
  }

  /**
   * The queries built for `datasets`, `n` per dataset and in dataset order.
   * `encode` stands for the Rison encoding of the one-filter query on
   * `table_name` (`prison.dumps`), given the dataset's table name or None.
   */
  function QueriesFor(url: string, datasets: seq<Dataset>, encode: Option<string> -> string, n: nat): (r: seq<Query>)
    ensures |r| == |datasets| * n
  {
    if datasets == [] then []
    else
      var last := datasets[|datasets| - 1];
      QueriesFor(url, datasets[..|datasets| - 1], encode, n) + Repeat(Query(url, encode(last.tableName)), n)
  }

  /**
   * The query at block `d`, copy `i` is the lookup of dataset `d`: every copy
   * shares the URL and the filter value.
   */
  lemma {:induction false} QueriesForAt(url: string, datasets: seq<Dataset>, encode: Option<string> -> string,
                                        n: nat, d: nat, i: nat)
    requires d < |datasets| && i < n
    ensures d * n + i < |QueriesFor(url, datasets, encode, n)|
    ensures QueriesFor(url, datasets, encode, n)[d * n + i] == Query(url, encode(datasets[d].tableName))
  {
    var m := |datasets| - 1;
    var init := datasets[..m];
    var prev := QueriesFor(url, init, encode, n);
    var block := Repeat(Query(url, encode(datasets[m].tableName)), n);
    assert QueriesFor(url, datasets, encode, n) == prev + block;
    assert |prev| == m * n;
    if d < m {
      MulMonotone(d + 1, m, n);
      assert (d + 1) * n == d * n + n;
      QueriesForAt(url, init, encode, n, d, i);
      assert (prev + block)[d * n + i] == prev[d * n + i];
    } else {
      assert (prev + block)[m * n + i] == block[i];
    }
  }

  lemma {:induction false} MulMonotone(a: nat, b: nat, n: nat)
    requires a <= b
    ensures a * n <= b * n
  {
    if a < b {
      MulMonotone(a, b - 1, n);
      assert b * n == (b - 1) * n + n;
    }
  }

  /** With the default batch size every dataset is looked up nine times. */
  lemma DefaultBatchIsNinePerDataset(url: string, datasets: seq<Dataset>, encode: Option<string> -> string)
    ensures |QueriesFor(url, datasets, encode, Reps(DefaultBatchSize))| == 9 * |datasets|
  {
  }
}
