/** `sortQueries` (analyzer.go:458-499): the debug-string buckets of a query
    collection, cut down to their test queries and ranked by how many of them
    belong to failed tests, then by size, then by debug string. */
module Ranking {
  import opened Common
  import opened Utils
  import opened Query

  /** `Pair[string, []Query]`: a debug string and the test queries of its
      bucket. */
  datatype Group = Group(debug: string, queries: seq<Query>)

  predicate IsFailed(q: Query)
  {
    q.testFailed
  }

  /** Number of queries of `qs` from failed tests. */
  function FailedCount(qs: seq<Query>): nat
  {
    Occurrences(qs, IsFailed)
  }

  /** The comparator handed to `sort.SliceStable` (analyzer.go:480-497). */
  predicate Before(a: Group, b: Group)
  {
    var fa := FailedCount(a.queries);
    var fb := FailedCount(b.queries);
    if fa != fb then fa > fb
    else if |a.queries| != |b.queries| then |a.queries| > |b.queries|
    else LexLess(a.debug, b.debug)
  }

  /** The comparator as the source computes it, counting failures with
      `Count`. */
  method Less(a: Group, b: Group) returns (r: bool)
    ensures r == Before(a, b)
  {
    var leftFailed := Count(a.queries, IsFailed);
    var rightFailed := Count(b.queries, IsFailed);
    if leftFailed != rightFailed {
      r := leftFailed > rightFailed;
    } else if |a.queries| != |b.queries| {
      r := |a.queries| > |b.queries|;
    } else {
      r := LexLess(a.debug, b.debug);
    }
  }

  lemma LexLessAsymmetric(a: string, b: string)
    ensures LexLess(a, b) ==> !LexLess(b, a)
    decreases |a|
  {
    if a != [] && b != [] && a[0] == b[0] {
      LexLessAsymmetric(a[1..], b[1..]);
    }
  }

  /** `Before` is a strict order ... */
  lemma BeforeIrreflexive(a: Group)
    ensures !Before(a, a)
  {
    LexLessIrreflexive(a.debug);
  }

  lemma BeforeAsymmetric(a: Group, b: Group)
    ensures Before(a, b) ==> !Before(b, a)
  {
    LexLessAsymmetric(a.debug, b.debug);
  }

  lemma BeforeTransitive(a: Group, b: Group, c: Group)
    ensures Before(a, b) && Before(b, c) ==> Before(a, c)
  {
    if Before(a, b) && Before(b, c) && LexLess(a.debug, b.debug) && LexLess(b.debug, c.debug) {
      LexLessTransitive(a.debug, b.debug, c.debug);
    }
  }

  /** ... which is total on groups with different debug strings. */
  lemma BeforeTotal(a: Group, b: Group)
    requires a.debug != b.debug
    ensures Before(a, b) || Before(b, a)
  {
    LexLessTotal(a.debug, b.debug);
  }

  /** The queries of a bucket that belong to a test, in bucket order
      (analyzer.go:461-466). */
  method TestQueriesOf(queries: seq<Query>) returns (testQueries: seq<Query>)
    ensures testQueries == TestOnly(queries)
  {
    testQueries := [];
    var i := 0;
    while i < |queries|
      invariant 0 <= i <= |queries|
      invariant testQueries == TestOnly(queries[..i])
    {
      assert queries[..i + 1][..i] == queries[..i];
      if queries[i].testId != "" {
        testQueries := testQueries + [queries[i]];
      }
      i := i + 1;
    }
    assert queries[..i] == queries;
  }

  /** The groups `sortQueries` builds from the index `m`: one per bucket
      that holds at least one test query. */
  function Buckets(m: map<string, seq<Query>>): set<Group>
  {
    set k | k in m && TestOnly(m[k]) != [] :: Group(k, TestOnly(m[k]))
  }

  lemma BucketsShape(m: map<string, seq<Query>>, g: Group)
    requires g in Buckets(m)
    ensures g.debug in m && g.queries == TestOnly(m[g.debug]) && g.queries != []
  {
    var k :| k in m && TestOnly(m[k]) != [] && g == Group(k, TestOnly(m[k]));
  }

  /** The collecting loop (analyzer.go:460-471): the map is walked in an
      arbitrary order, which `:|` stands for. */
  method CollectGroups(m: map<string, seq<Query>>) returns (groups: seq<Group>)
    ensures forall g | g in groups :: g in Buckets(m)
    ensures forall k | k in m && TestOnly(m[k]) != [] :: Group(k, TestOnly(m[k])) in groups
    ensures forall i, j | 0 <= i < j < |groups| :: groups[i].debug != groups[j].debug
  {
    groups := [];
    var keys := m.Keys;
    while keys != {}
      invariant keys <= m.Keys
      invariant forall g | g in groups :: g in Buckets(m) && g.debug !in keys
      invariant forall k | k in m && k !in keys && TestOnly(m[k]) != [] :: Group(k, TestOnly(m[k])) in groups
      invariant forall i, j | 0 <= i < j < |groups| :: groups[i].debug != groups[j].debug
      decreases keys
    {
      var k :| k in keys;
      var testQueries := TestQueriesOf(m[k]);
      if |testQueries| > 0 {
        groups := groups + [Group(k, testQueries)];
      }
      keys := keys - {k};
    }
  }

  /** No later group is ranked strictly before an earlier one. */
  predicate Sorted(s: seq<Group>)
  {
    forall i, j | 0 <= i < j < |s| :: !Before(s[j], s[i])
  }

  /** Every group is ranked strictly before every later one. */
  predicate StrictlySorted(s: seq<Group>)
  {
    forall i, j | 0 <= i < j < |s| :: Before(s[i], s[j])
  }

  /** Places `g` before the first group it ranks before. */
  function Insert(g: Group, s: seq<Group>): seq<Group>
  {
    if s == [] then [g]
    else if Before(g, s[0]) then [g] + s
    else [s[0]] + Insert(g, s[1..])
  }

  lemma {:induction false} InsertPermutes(g: Group, s: seq<Group>)
    ensures multiset(Insert(g, s)) == multiset(s) + multiset{g}
    decreases |s|
  {
    if s != [] {
      assert s == [s[0]] + s[1..];
      if !Before(g, s[0]) {
        InsertPermutes(g, s[1..]);
      }
    }
  }

  /** Every element of `Insert(g, s)` is `g` or an element of `s`. */
  lemma InsertMembers(g: Group, s: seq<Group>, x: Group)
    requires x in Insert(g, s)
    ensures x == g || exists k | 0 <= k < |s| :: s[k] == x
  {
    InsertPermutes(g, s);
    assert x in multiset(Insert(g, s));
  }

  /** Inserting into a sorted list keeps it sorted. */
  lemma {:induction false} InsertSorted(g: Group, s: seq<Group>)
    requires Sorted(s)
    ensures Sorted(Insert(g, s))
    decreases |s|
  {
    if s != [] {
      if Before(g, s[0]) {
        forall j | 0 <= j < |s|
          ensures !Before(s[j], g)
        {
          BeforeTransitive(s[j], g, s[0]);
          BeforeIrreflexive(s[0]);
        }
        var r := [g] + s;
        forall i, j | 0 <= i < j < |r|
          ensures !Before(r[j], r[i])
        {
          if i > 0 {
            assert r[i] == s[i - 1] && r[j] == s[j - 1];
          }
        }
      } else {
        var t := Insert(g, s[1..]);
        InsertSorted(g, s[1..]);
        forall x | x in t
          ensures !Before(x, s[0])
        {
          InsertMembers(g, s[1..], x);
          if x != g {
            var k :| 0 <= k < |s[1..]| && s[1..][k] == x;
            assert s[k + 1] == x;
          }
        }
        var r := [s[0]] + t;
        forall i, j | 0 <= i < j < |r|
          ensures !Before(r[j], r[i])
        {
          if i > 0 {
            assert r[i] == t[i - 1] && r[j] == t[j - 1];
          } else {
            assert r[j] in t;
          }
        }
      }
    }
  }

  /** Inserting a new element into a list without repeats adds none. */
  lemma {:induction false} InsertNoDup(g: Group, s: seq<Group>)
    requires NoDup(s) && g !in s
    ensures NoDup(Insert(g, s))
    decreases |s|
  {
    if s != [] {
      if !Before(g, s[0]) {
        var t := Insert(g, s[1..]);
        InsertNoDup(g, s[1..]);
        forall x | x in t
          ensures x != s[0]
        {
          InsertMembers(g, s[1..], x);
          if x != g {
            var k :| 0 <= k < |s[1..]| && s[1..][k] == x;
            assert s[k + 1] == x;
          }
        }
        var r := [s[0]] + t;
        forall i, j | 0 <= i < j < |r|
          ensures r[i] != r[j]
        {
          if i > 0 {
            assert r[i] == t[i - 1] && r[j] == t[j - 1];
          } else {
            assert r[j] in t;
          }
        }
      } else {
        var r := [g] + s;
        forall i, j | 0 <= i < j < |r|
          ensures r[i] != r[j]
        {
          if i > 0 {
            assert r[i] == s[i - 1] && r[j] == s[j - 1];
          } else {
            assert r[j] in s;
          }
        }
      }
    }
  }

  /** `sort.SliceStable` with `Before`, as an insertion sort: the result is
      sorted and a permutation of the input. */
  method SortGroups(groups: seq<Group>) returns (sorted: seq<Group>)
    ensures Sorted(sorted)
    ensures multiset(sorted) == multiset(groups)
    ensures NoDup(groups) ==> NoDup(sorted)
  {
    sorted := [];
    var i := 0;
    while i < |groups|
      invariant 0 <= i <= |groups|
      invariant Sorted(sorted)
      invariant multiset(sorted) == multiset(groups[..i])
      invariant NoDup(groups) ==> NoDup(sorted)
    {
      assert groups[..i + 1] == groups[..i] + [groups[i]];
      if NoDup(groups) {
        assert groups[i] !in groups[..i];
        assert groups[i] !in multiset(sorted);
      }
      InsertPermutes(groups[i], sorted);
      InsertSorted(groups[i], sorted);
      if NoDup(groups) {
        InsertNoDup(groups[i], sorted);
      }
      sorted := Insert(groups[i], sorted);
      i := i + 1;
    }
    assert groups[..i] == groups;
  }

  /** What `sortQueries` returns for the index `m`: exactly its non-empty
      test-query groups, each once, in strictly decreasing rank. */
  predicate Ranked(m: map<string, seq<Query>>, r: seq<Group>)
  {
    && (forall g | g in r :: g in Buckets(m))
    && (forall k | k in m && TestOnly(m[k]) != [] :: Group(k, TestOnly(m[k])) in r)
    && StrictlySorted(r)
  }

  /** Groups of one index with no repeats have different debug strings, so
      a sorted list of them is strictly sorted. */
  lemma SortedIsStrict(m: map<string, seq<Query>>, s: seq<Group>)
    requires forall g | g in s :: g in Buckets(m)
    requires NoDup(s) && Sorted(s)
    ensures StrictlySorted(s)
  {
    forall i, j | 0 <= i < j < |s|
      ensures Before(s[i], s[j])
    {
      BucketsShape(m, s[i]);
      BucketsShape(m, s[j]);
      BeforeTotal(s[i], s[j]);
    }
  }

  /** `sortQueries` (analyzer.go:458-499). */
  method SortQueries(collection: QueryCollection) returns (ranked: seq<Group>)
    ensures Ranked(collection.byDebugString, ranked)
  {
    var m := collection.byDebugString;
    var groups := CollectGroups(m);
    ranked := SortGroups(groups);
    forall g | g in ranked
      ensures g in groups
    {
      assert g in multiset(ranked);
    }
    forall g | g in groups
      ensures g in ranked
    {
      assert g in multiset(groups);
    }
    SortedIsStrict(m, ranked);
  }

  /** Two strictly sorted lists with the same elements are equal. */
  lemma {:induction false} StrictlySortedUnique(a: seq<Group>, b: seq<Group>)
    requires StrictlySorted(a) && StrictlySorted(b)
    requires forall g :: g in a <==> g in b
    ensures a == b
    decreases |a|
  {
    assert a != [] ==> a[0] in b;
    assert b != [] ==> b[0] in a;
    if a != [] && b != [] {
      SameHead(a, b);
      forall g
        ensures g in a[1..] <==> g in b[1..]
      {
        if g in a[1..] {
          InTail(a, b, g);
        }
        if g in b[1..] {
          InTail(b, a, g);
        }
      }
      StrictlySortedUnique(a[1..], b[1..]);
      assert a == [a[0]] + a[1..] && b == [b[0]] + b[1..];
    }
  }

  /** Two non-empty strictly sorted lists with the same elements start alike. */
  lemma SameHead(a: seq<Group>, b: seq<Group>)
    requires StrictlySorted(a) && StrictlySorted(b) && a != [] && b != []
    requires forall g :: g in a <==> g in b
    ensures a[0] == b[0]
  {
    assert a[0] in a && b[0] in b;
    var k :| 0 <= k < |b| && b[k] == a[0];
    var n :| 0 <= n < |a| && a[n] == b[0];
    BeforeAsymmetric(a[0], b[0]);
  }

  /** With equal heads, a later element of `a` is a later element of `b`. */
  lemma InTail(a: seq<Group>, b: seq<Group>, g: Group)
    requires StrictlySorted(a) && StrictlySorted(b) && a != [] && b != [] && a[0] == b[0]
    requires forall h :: h in a <==> h in b
    requires g in a[1..]
    ensures g in b[1..]
  {
    var i :| 0 <= i < |a[1..]| && a[1..][i] == g;
    assert a[i + 1] == g && Before(a[0], g);
    BeforeIrreflexive(a[0]);
    assert g in a && g in b;
    var j :| 0 <= j < |b| && b[j] == g;
    assert j != 0;
    assert b[1..][j - 1] == g;
  }

  /** The ranking is fully determined by the index: the map's iteration
      order, and hence the sort's stability, cannot change it. */
  lemma RankingDetermined(m: map<string, seq<Query>>, r1: seq<Group>, r2: seq<Group>)
    requires Ranked(m, r1) && Ranked(m, r2)
    ensures r1 == r2
  {
    forall g
      ensures g in r1 <==> g in r2
    {
      if g in r1 {
        BucketsShape(m, g);
      }
      if g in r2 {
        BucketsShape(m, g);
      }
    }
    StrictlySortedUnique(r1, r2);
  }

  /** Filtering a bucket to its test queries is the same as taking the
      test queries with that key. */
  lemma {:induction false} TestOnlySelect(all: seq<Query>, key: Query -> string, k: string)
    ensures TestOnly(Select(all, key, k)) == Select(TestOnly(all), key, k)
    decreases |all|
  {
    if all != [] {
      var pre := all[..|all| - 1];
      var q := all[|all| - 1];
      TestOnlySelect(pre, key, k);
      FrontLast(all);
      SelectSnoc(pre, key, k, q);
      var s := Select(pre, key, k);
      var t := TestOnly(pre);
      IndexSnoc(pre, key, q);
      if key(q) == k {
        IndexSnoc(s, key, q);
      } else {
        assert s + [] == s;
      }
      if q.testId != "" {
        SelectSnoc(t, key, k, q);
      } else {
        assert t + [] == t;
      }
    }
  }

  lemma SelectSnoc(all: seq<Query>, key: Query -> string, k: string, q: Query)
    ensures Select(all + [q], key, k) == Select(all, key, k) + (if key(q) == k then [q] else [])
  {
    assert (all + [q])[..|all|] == all;
  }

  /** Read against a valid collection, each ranked group holds the test
      queries with its debug string in log order, and no group is empty;
      its rank compares failed counts, then sizes, then debug strings. */
  lemma RankedGroups(collection: QueryCollection, r: seq<Group>)
    requires collection.Valid() && Ranked(collection.byDebugString, r)
    ensures forall g | g in r ::
      && g.queries != []
      && g.queries == Select(collection.testQueries, collection.DebugKey, g.debug)
    ensures forall i, j | 0 <= i < j < |r| ::
      && FailedCount(r[i].queries) >= FailedCount(r[j].queries)
      && (FailedCount(r[i].queries) == FailedCount(r[j].queries) ==> |r[i].queries| >= |r[j].queries|)
  {
    collection.Partition();
    forall g | g in r
      ensures g.queries != [] && g.queries == Select(collection.testQueries, collection.DebugKey, g.debug)
    {
      BucketsShape(collection.byDebugString, g);
      TestOnlySelect(collection.all, collection.DebugKey, g.debug);
    }
  }
}
