/** The record kept for each logged statement and the append-only store that
    indexes those records by test id and by query-tree shape (query.go). */
module Query {
  import opened Tree

  /** One recorded statement. `node` is the parsed (not canonicalised) tree. */
  datatype Query = Query(
    lineNumber: nat,
    text: string,
    node: Node,
    nodeDebug: string,
    testId: string,
    testFailed: bool,
    pyTestName: string,
    error: string)

  /** A missing map entry reads as the empty slice, as a nil slice does in Go. */
  function Get(m: map<string, seq<Query>>, k: string): seq<Query>
  {
    if k in m then m[k] else []
  }

  /** The queries of `all` that carry a test id, in order. */
  function TestOnly(all: seq<Query>): (r: seq<Query>)
    ensures |r| <= |all|
  {
    if all == [] then []
    else TestOnly(all[..|all| - 1]) + (if all[|all| - 1].testId != "" then [all[|all| - 1]] else [])
  }

  /** `TestOnly` keeps exactly the queries with a test id, in order. */
  lemma {:induction false} TestOnlySpec(all: seq<Query>)
    ensures forall q | q in TestOnly(all) :: q in all && q.testId != ""
    ensures forall q | q in all && q.testId != "" :: q in TestOnly(all)
    decreases |all|
  {
    if all != [] {
      var pre := all[..|all| - 1];
      TestOnlySpec(pre);
      assert all == pre + [all[|all| - 1]];
    }
  }

  /** The queries of `all` whose key is `k`, in order. */
  function Select(all: seq<Query>, key: Query -> string, k: string): (r: seq<Query>)
    ensures |r| <= |all|
  {
    if all == [] then []
    else Select(all[..|all| - 1], key, k) + (if key(all[|all| - 1]) == k then [all[|all| - 1]] else [])
  }

  /** The index a sequence of `Add` calls builds: each query is appended to the
      bucket of its key, a fresh bucket being created on first use. */
  function Index(all: seq<Query>, key: Query -> string): (m: map<string, seq<Query>>)
  {
    if all == [] then map[]
    else
      var m := Index(all[..|all| - 1], key);
      var q := all[|all| - 1];
      m[key(q) := Get(m, key(q)) + [q]]
  }

  lemma IndexSnoc(all: seq<Query>, key: Query -> string, q: Query)
    ensures Index(all + [q], key) == Index(all, key)[key(q) := Get(Index(all, key), key(q)) + [q]]
    ensures TestOnly(all + [q]) == TestOnly(all) + (if q.testId != "" then [q] else [])
  {
    assert (all + [q])[..|all|] == all;
  }

  /** Total number of queries held by the buckets of `m`. */
  ghost function Total(m: map<string, seq<Query>>): nat
    decreases |m.Keys|
  {
    if m == map[] then 0
    else
      var k :| k in m;
      |m[k]| + Total(m - {k})
  }

  /** `Total` does not depend on which key is taken first. */
  lemma {:induction false} TotalRemove(m: map<string, seq<Query>>, k: string)
    requires k in m
    ensures Total(m) == |m[k]| + Total(m - {k})
    decreases |m.Keys|
  {
    var j :| j in m && Total(m) == |m[j]| + Total(m - {j});
    if j != k {
      TotalRemove(m - {j}, k);
      TotalRemove(m - {k}, j);
      assert m - {j} - {k} == m - {k} - {j};
    }
  }

  /** Appending one query to one bucket raises the total by one. */
  lemma TotalAppend(m: map<string, seq<Query>>, k: string, q: Query)
    ensures Total(m[k := Get(m, k) + [q]]) == Total(m) + 1
  {
    var m' := m[k := Get(m, k) + [q]];
    TotalRemove(m', k);
    assert m' - {k} == m - {k};
    if k in m {
      TotalRemove(m, k);
    } else {
      assert m - {k} == m;
    }
  }

  /** Every bucket of the index is exactly the in-order subsequence of `all`
      with that key, and the index has a bucket for a key exactly when some
      query has that key. */
  lemma {:induction false} IndexBuckets(all: seq<Query>, key: Query -> string)
    ensures forall k :: Get(Index(all, key), k) == Select(all, key, k)
    ensures forall k :: k in Index(all, key) <==> Select(all, key, k) != []
    decreases |all|
  {
    if all != [] {
      IndexBuckets(all[..|all| - 1], key);
    }
  }

  /** The buckets partition the store: their sizes add up to the number of
      queries. */
  lemma {:induction false} IndexTotal(all: seq<Query>, key: Query -> string)
    ensures Total(Index(all, key)) == |all|
    decreases |all|
  {
    if all != [] {
      var m := Index(all[..|all| - 1], key);
      IndexTotal(all[..|all| - 1], key);
      TotalAppend(m, key(all[|all| - 1]), all[|all| - 1]);
    }
  }

  /** The key of the test-id index. */
  function TestIdKey(q: Query): string
  {
    q.testId
  }

  /** `QueryCollection` (query.go:20-25): every query in arrival order, the
      ones that belong to a test, and two indexes. `debugString` stands for
      `sql.DebugString`, the key of the second index. */
  class QueryCollection {
    const debugString: Node -> string
    var all: seq<Query>
    var testQueries: seq<Query>
    var byTestId: map<string, seq<Query>>
    var byDebugString: map<string, seq<Query>>

    /** The key of the debug-string index. */
    function DebugKey(q: Query): string
    {
      debugString(q.node)
    }

    /** The derived fields are what the stored queries determine. */
    ghost predicate Valid()
      reads this
    {
      && testQueries == TestOnly(all)
      && byTestId == Index(all, TestIdKey)
      && byDebugString == Index(all, DebugKey)
    }

    /** `NewQueryCollection` (query.go:27-33): empty store, empty indexes. */
    constructor (debugString: Node -> string)
      ensures Valid()
      ensures this.debugString == debugString
      ensures all == [] && testQueries == [] && byTestId == map[] && byDebugString == map[]
    {
      this.debugString := debugString;
      all := [];
      testQueries := [];
      byTestId := map[];
      byDebugString := map[];
    }

    /** `Add` (query.go:35-43): appends the query to the store, to the test
        queries when it has a test id, and to its bucket in each index; all
        other buckets are left alone. */
    method Add(query: Query)
      requires Valid()
      modifies this
      ensures Valid()
      ensures all == old(all) + [query]
      ensures testQueries == old(testQueries) + (if query.testId != "" then [query] else [])
      ensures byTestId == old(byTestId)[query.testId := Get(old(byTestId), query.testId) + [query]]
      ensures byDebugString == old(byDebugString)[DebugKey(query) := Get(old(byDebugString), DebugKey(query)) + [query]]
    {
      IndexSnoc(all, TestIdKey, query);
      IndexSnoc(all, DebugKey, query);
      all := all + [query];
      if query.testId != "" {
        testQueries := testQueries + [query];
      }
      byTestId := byTestId[query.testId := Get(byTestId, query.testId) + [query]];
      var key := debugString(query.node);
      byDebugString := byDebugString[key := Get(byDebugString, key) + [query]];
    }

    /** The partition invariant: each index's buckets hold every stored query
        exactly once, in arrival order. */
    lemma Partition()
      requires Valid()
      ensures Total(byTestId) == |all| && Total(byDebugString) == |all|
      ensures forall k :: Get(byTestId, k) == Select(all, TestIdKey, k)
      ensures forall k :: Get(byDebugString, k) == Select(all, DebugKey, k)
    {
      IndexTotal(all, TestIdKey);
      IndexTotal(all, DebugKey);
      IndexBuckets(all, TestIdKey);
      IndexBuckets(all, DebugKey);
    }
  }
}
