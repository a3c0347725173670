# dolt-log-analyzer, modelled in Dafny

dolt-log-analyzer reads the debug log of a Dolt SQL server that ran a Python
test suite. It also reads the test runner's report. It links every SQL
statement in the log to the test that was running when the statement
executed. It groups the statements by the shape of their query tree and
ranks the groups by how many of their statements belong to failed tests.

This project models the core of that tool and proves properties of the model:

- `Scan`: the log scan (`parseQueries`). It covers statement extraction,
  base64 decoding, the test tracker driven by the setUp and _post_teardown
  sentinel statements, the recording filters and the grouping of statements
  into tests.
- `Report`: the report reader (`parsePytestReport`). It collects failed and
  errored test ids after the separator line, and picks up patch queries
  before it.
- `Query`: the query collection (`QueryCollection`, `NewQueryCollection`,
  `Add`). It is an append-only store with a test-query list and two indexes.
  The indexes are proved to partition the store.
- `Tables`: `getTablesUsed`. It lists the tables a query tree reads,
  including those inside subqueries, first-seen and duplicate-free. This
  assumes that the library walks it calls visit every node and every
  sub-expression while the callback returns true.
- `Ranking`: `sortQueries` with its comparator. The ranking is proved to be
  determined by the index alone.
- `Tree`: the canonicaliser (`getPlaceholder`, `DropExtraneousData`,
  `ParseQuery`). The query tree is a closed datatype over the node and
  expression kinds the rewrite distinguishes, plus an "other" kind.
- `Regex`: the patterns, `RegexSplit` and the conversions between dotted
  test ids and `name (suite)` display names. The fixed-shape patterns are
  modelled exactly, with the semantics of Go's `regexp`: the leftmost match
  wins, `.*` is greedy and `.` stops at a newline.
- `Settings`: `NewSettings` and `GetOutputFilePath`, with Unix
  `filepath.Base` and `filepath.Ext` written out.
- `Utils`: `Count`.
- `Common`: small stand-ins for Go's `strings` and `slices` helpers.

Some things are parameters instead of code:

- The SQL parser, `sql.DebugString`, base64 decoding, the two log-record
  regexes and the two patch regexes are function-valued parameters. They are
  gathered in the records `LogShapes` and `ReportShapes`.
- `filepath.Clean` is a parameter of `Settings`.
- Files are given as their sequence of lines.
- Where the source panics, the model has a precondition or an explicit
  outcome:
  - `PyTestNameFromTestId` on an id without a dot: precondition.
  - `parseQueries` when the current test id has no dot: precondition
    `NoPanic`.
  - `getPlaceholder` on an unhandled type: `Err` result.
  - The patch pickup when its result line does not match:
    `Panicked(lineNumber)`.

## Model

| member | source | states |
|---|---|---|
| Scan.Statement | analyzer.go:192-216 | When the finished shape matches, it wins: a statement is found iff its capture is non-empty, with empty error text. Otherwise, when the errored shape matches, a statement is found iff its query capture is non-empty, and the error text is the errored shape's error capture. When neither matches, nothing is found. The query is the base64 decoding of the raw capture when decoding succeeds, else the raw capture. |
| Scan.ReadStatement | analyzer.go:192-216 | The loop's reading of one line agrees with `Statement`. When the finished shape matches, the error is empty and a statement is found iff the capture is non-empty. A non-empty error means the finished shape failed, the errored shape matched, and the error is its error capture. A line matching neither shape yields no statement. |
| Scan.Track | analyzer.go:218-234 | Only a setUp or _post_teardown sentinel changes the current test id, and the id stays a single line. Its sentinel transitions are stated by `StartingSentinelOpensTest` and `FinishedSentinelClosesTest`. |
| Scan.ScanLine | analyzer.go:189-276 | One loop iteration. The new tracker state is the sentinel transition of the line's statement. The record is the line's query, absent when no statement was found, when the query is hidden as non-test or when it fails to parse. The record carries the new test id. |
| Scan.AttachToTest | analyzer.go:278-306 | Adding a test statement to the open test or opening a new one keeps "flushed tests == maximal runs of equal test id over the test statements so far". |
| Scan.ParseQueries | analyzer.go:172-309 | The returned collection is fresh and valid. Its store is exactly the per-line records of the log, in order. The tests are the maximal runs of equal id over the test queries, with the open test flushed at the end. |
| Scan.RecordsSound | analyzer.go:236-276 | Each recorded query matches its own line: the statement and error text extracted from that line; the test id the tracker has after that line; hidden non-test queries absent; `testFailed` iff the id is non-empty and among the failed ids; the display name derived from the id; the parsed tree and its debug string. |
| Scan.RecordsOrdered | analyzer.go:188-190 | Records appear in strictly increasing line order, at most one per line. |
| Scan.LineDropped | analyzer.go:198-210 | A line without a statement, or with a statement that is hidden as non-test, adds no record. A line without a statement also leaves the tracker unchanged. |
| Scan.LineRecorded | analyzer.go:236-276 | Conversely, a line whose statement is found, is not hidden as non-test and parses adds exactly one record. That record carries the line's number, statement, error text and tree, and the tracker's id after that line. |
| Scan.ParseFailureDropped | analyzer.go:247-251 | A statement the parser rejects adds no record. |
| Scan.StartingSentinelOpensTest | analyzer.go:218-222 | After a setUp sentinel statement naming an id without a newline, the current test id is that id. |
| Scan.FinishedSentinelClosesTest | analyzer.go:225-231 | After a _post_teardown sentinel statement naming an id without a quote or newline, the current test id is empty, whatever the open test was. |
| Scan.FinishedSentinelRecorded | analyzer.go:225-276 | A _post_teardown sentinel statement that parses, naming an id without a quote or newline, is recorded outside any test (empty id, not failed) on its own line number when non-test statements are shown, and adds nothing when they are hidden. |
| Scan.FinishedIsNotStarting | regex.go:12-14 | A _post_teardown sentinel never matches the setUp shape, so the finished branch is the one taken. |
| Scan.StartingSentinelRecorded | analyzer.go:218-276 | A setUp sentinel statement that parses is itself recorded, under its own test id and with that id's failure status. |
| Scan.GroupRunsFlatten | analyzer.go:278-306 | Concatenating the tests' query lists gives back the test queries exactly, in order. |
| Scan.GroupRunsWellFormed | analyzer.go:281-298 | Every test is non-empty and all its queries carry its id. Its table list is the first-seen merge of its queries' tables. |
| Scan.GroupRunsAdjacentDistinct | analyzer.go:281-291 | Adjacent tests have different ids. A test id that resumes after another test opens a new test. |
| Scan.GroupRunsFailed | analyzer.go:240-291 | When every query's failure flag says whether its id is failed, so does every test's flag. |
| Scan.TablesUsedDistinct | analyzer.go:294-298 | A test's table list has no duplicates and holds exactly the tables of its queries. |
| Scan.ScanTests | analyzer.go:236-306 | Over a whole scan: every test has a non-empty id, a duplicate-free table list, and a failure flag equal to membership of its id in the failed ids and to every query's flag. Adjacent ids differ, and the tests hold every test statement once, in log order. |
| Scan.NoPanicPrefix | analyzer.go:242-243 | The no-panic condition on a log holds for every prefix of it. |
| Report.ParsePytestReport | analyzer.go:100-170 | An empty report path gives empty lists and no error. An open failure gives empty lists and that error. Otherwise the result is the per-line fold of the reader, or a panic at the line whose patch result does not match. |
| Report.ReadLinesFailedIds | analyzer.go:115-134 | `separatorSeen` holds iff a separator line has been read. The failed ids are those named by the lines from the first separator on, in report order, duplicates kept. A panic can only come before the separator. |
| Report.ReadLine | analyzer.go:116-165 | One line of the reader. The only panic is at that line, before the separator, on the line after a patch-query announcement. Otherwise both lists only grow and `separatorSeen` becomes "already seen or this line is the separator". Failed ids are added only once the separator is seen, patch queries only before it. |
| Report.FailedIdOfLine | analyzer.go:120-131 | A line names a failed test iff it matches the `FAIL:` or the `ERROR:` shape. The id is then a single-line dotted id that splits at its last dot. `FailLineNamesTest` and `ErrorLineNamesTest` give the exact id. |
| Report.SeparatorNamesNoTest | analyzer.go:118-133 | The separator line itself names no failed test. |
| Report.FailLineNamesTest | analyzer.go:124-132 | `FAIL: name (suite)` contributes `suite.name`. |
| Report.ErrorLineNamesTest | analyzer.go:124-132 | `ERROR: name (suite)` contributes `suite.name`, the `FAIL:` shape being tried first and failing. |
| Report.ReadLinesPatchQueries | analyzer.go:134-165 | While the reader, before the separator, waits for a result line, the previous line announced exactly one table, the one it waits for. Every patch query comes from the line after its announcement, carries that line number and table, and holds the decoded items of that line. Patch queries appear in increasing line order. |
| Report.PatchLinePickedUp | analyzer.go:134-165 | Conversely, before the separator, a line announcing one table while no result line is awaited makes the reader pick up the next non-separator line. Its patch query, with that line number and table, is appended, or the reader panics at that line when it does not match. |
| Report.ReadPatchResult | analyzer.go:135-153 | Reading a result line gives the patch query with the line's number and the announced table, or nothing when the line or one of its items does not match (the source panics). |
| Report.DecodePatchItems | analyzer.go:142-150 | Each item, with every literal `\n` removed, is matched with `.*, '(.*)'.*` and its capture decoded. The result is one query per item, or nothing when an item does not match. |
| Report.DecodeItemsStuck | analyzer.go:143-147 | Once an item fails to match, the whole pickup fails. |
| Report.ReadLinesStuckFrom | analyzer.go:141-146 | Once the reader panics at a line, it has panicked for every longer report. |
| Query.QueryCollection.constructor | query.go:27-33 | The store, the test-query list and both indexes start empty. |
| Query.QueryCollection.Add | query.go:35-43 | Appends the query to the store. Appends it to the test queries iff it has a test id. Appends it to its bucket in each index (the empty id has its own bucket) and leaves every other bucket unchanged. Keeps `Valid`. |
| Query.QueryCollection.Partition | query.go:35-43 | In a valid collection, the bucket sizes of each index sum to the number of stored queries. Each bucket is the in-order subsequence of the store with that key. |
| Query.TestOnlySpec | query.go:37-39 | The test-query list holds exactly the stored queries with a non-empty test id. |
| Query.IndexBuckets | query.go:40-42 | Each bucket of an index built by `Add` is the in-order subsequence with its key. A key has a bucket iff some query has that key. |
| Query.IndexTotal | query.go:40-42 | The bucket sizes of an index built by `Add` sum to the number of queries added. |
| Tables.GetTablesUsed | analyzer.go:311-347 | The result is the first-seen, duplicate-free list of the tables of the tree in visiting order, and never contains the empty name. |
| Tables.InspectNode | analyzer.go:313-345 | Visiting a node merges its own table name, then the tables of its expressions, then those of its children, into the list so far. |
| Tables.InspectExpr | analyzer.go:329-340 | Visiting an expression merges the tables of every subquery inside it, computed by a recursive `getTablesUsed`. |
| Tables.InspectExprs | analyzer.go:328-341 | Visiting the expression list merges each expression's tables in turn. |
| Tables.MergeTables | analyzer.go:333-337 | The `!slices.Contains` merge loop appends, in order, each table not already present. |
| Tables.SubqueryTablesIncluded | analyzer.go:329-336 | The tables of a subquery inside a node's expressions are among the node's tables. |
| Tables.NodeTablesNonEmpty | analyzer.go:321 | The empty name is never listed. |
| Common.AppendNewSpec | analyzer.go:294-298 | The "append if not contained" merge keeps the old list as a prefix, adds no duplicate and holds exactly the elements of both inputs. |
| Common.AppendNewConcat | analyzer.go:294-298 | Merging a concatenation is merging one list after the other. |
| Common.AppendNewDedup | analyzer.go:332-337 | Merging a sub-tree's deduplicated table list gives the same result as merging all of its tables. |
| Common.SplitJoin | analyzer.go:142 | `strings.Split` followed by joining with the same separator gives back the original string. |
| Common.RemoveAll | analyzer.go:144 | `strings.Replace(s, "\\n", "", -1)` (removing the two characters backslash and `n`) does not lengthen the string, and leaves a string without the pattern unchanged. |
| Ranking.Less | analyzer.go:480-497 | The comparator computed with `Count`: more failed queries first, then more queries, then the smaller debug string. |
| Ranking.BeforeIrreflexive | analyzer.go:480-497 | No group is ranked before itself. |
| Ranking.BeforeAsymmetric | analyzer.go:480-497 | Two groups are never ranked each before the other. |
| Ranking.BeforeTransitive | analyzer.go:480-497 | The comparator is transitive. |
| Ranking.BeforeTotal | analyzer.go:480-497 | Groups with different debug strings are always ordered one way or the other. |
| Ranking.TestQueriesOf | analyzer.go:461-466 | The bucket filter keeps exactly the queries with a test id, in bucket order. |
| Ranking.CollectGroups | analyzer.go:459-471 | Whatever order the map is walked in, the result holds exactly one group per bucket with at least one test query. The group holds that bucket's test queries. |
| Ranking.SortGroups | analyzer.go:480 | The sort returns a permutation of its input in which no later group is ranked before an earlier one. It adds no duplicates. |
| Ranking.SortQueries | analyzer.go:458-499 | The result holds exactly the non-empty test-query groups of the debug-string index, each once, each strictly ranked before the next. |
| Ranking.RankingDetermined | analyzer.go:459-480 | Any two results that satisfy that description are equal. Map iteration order and sort stability cannot change the output. |
| Ranking.RankedGroups | analyzer.go:458-499 | Against a valid collection, each group is non-empty and is the test queries with its debug string, in log order. Failed counts never increase along the result, and sizes never increase within equal failed counts. |
| Ranking.TestOnlySelect | analyzer.go:461-466 | Filtering a bucket to its test queries equals taking the test queries with that key. |
| Tree.GetPlaceholder | tree.go:16-29 | String types give the `"placeholder"` Text literal. Number and decimal types give the Int64 literal 1. Null gives the null literal. Any other type class is an error naming the type. |
| Tree.ParseQuery | tree.go:31-49 | Fails with the parser's error when parsing fails. When parsing and canonicalisation both succeed, returns exactly the canonicalised tree, which is canonical. It panics only when parsing succeeded and canonicalisation failed, with that error, whose type has an unhandled class. |
| Tree.DropExtraneousData | tree.go:51-108 | A failure is always an unhandled-type error. `DropFailsIffUnhandled` states when it fails, `DropYieldsCanonical` what a success looks like, `DropIdempotent` that it is idempotent. |
| Tree.DropFailsIffUnhandled | tree.go:51-108 | Canonicalisation fails iff some literal anywhere in the tree, subqueries included, has an unhandled type. |
| Tree.DropYieldsCanonical | tree.go:56-98 | A successful canonicalisation has: every savepoint and alias named `"placeholder"`, no unresolved table, every projection a single star, every literal a placeholder. This holds recursively through subqueries. |
| Tree.CanonicalIsFixpoint | tree.go:56-98 | A canonical tree is left unchanged by the rewrite. |
| Tree.DropIdempotent | tree.go:51-108 | Canonicalising twice equals canonicalising once. |
| Tree.LiteralValuesCollapse | tree.go:51-108 | Two query trees of any shape, subqueries included, that differ only in their literals, each literal replaced by one of any value and any type of the same type class, either both fail or both canonicalise to the same tree. |
| Tree.ExprCollapse | tree.go:80-98 | The same for two expressions, subqueries included. |
| Regex.RegexSplit | regex.go:22-33 | No match gives nil. Otherwise the result is exactly the capture groups of the first match, in order. |
| Regex.Match | regex.go:22-33 | A match of a pattern has as many groups as the pattern captures. |
| Regex.SingleLine | regex.go:22-33 | On a single line, the match is the leftmost match. |
| Regex.TestIdFromPyTestName | regex.go:41-45 | The id made from a display name is a single-line string with a dot, so it can be converted back. `RoundTripFromPyTestName` states the round trip. |
| Regex.PyTestNameFromTestId | regex.go:47-51 | For a single-line id, the display name is the part after the last dot, then `" ("`, the part before it, and `")"`. `RoundTripFromTestId` states the round trip. |
| Regex.SplitAtLastDot | regex.go:47-51 | A one-line string matches the dotted-id shape iff it contains a dot. It then splits at its last dot. |
| Regex.StartingSentinelCaptures | regex.go:12 | `select 'dolt: setUp, test id = <id>'` captures `<id>`. |
| Regex.FinishedSentinelCaptures | regex.go:14 | `select 'dolt: _post_teardown, test id = <id>'` captures `<id>`. |
| Regex.FailedLineMatches | regex.go:16 | `FAIL: name (suite)` captures `name` and `suite`. |
| Regex.ErroredLineMatches | regex.go:17 | `ERROR: name (suite)` captures `name` and `suite`. |
| Regex.AbsentPrefixNoMatch | regex.go:22-27 | A line not containing a pattern's literal prefix does not match it. |
| Regex.CaptureHasNoNewline | regex.go:22-33 | No capture spans a newline. |
| Regex.RoundTripFromTestId | regex.go:41-51 | For a one-line id with a dot and no `" ("` before its last dot, converting to the display name and back gives the id. |
| Regex.RoundTripFromPyTestName | regex.go:41-51 | For `name (suite)` with a dot-free name, converting to the dotted id and back gives the display name. |
| Utils.Count | utils.go:14-22 | Returns the number of elements that satisfy the predicate. |
| Utils.Occurrences | utils.go:14-22 | The count is between 0 and the length. |
| Utils.OccurrencesAppend | utils.go:15-21 | Counting is additive over concatenation. |
| Utils.OccurrencesExtremes | utils.go:15-21 | The count equals the length iff every element matches, and is 0 iff none does. |
| Settings.NewSettings | settings.go:28-44 | Stores the log and report paths unchanged. The output directory is `Dir(logPath)`. Base name plus extension is `Base(logPath)`, and the extension is that file name's extension. Defaults are `hideNonTestQueries = false` and `logQueryText = true`. |
| Settings.Base | settings.go:29 | `filepath.Base` is never empty, and contains no slash unless it is `/`. |
| Settings.ExtSpec | settings.go:30 | `filepath.Ext` is a suffix of the path that starts with a dot and has no other dot or slash. It is empty iff no dot follows the last slash. |
| Settings.ExtOfSuffix | settings.go:30-31 | A name ending in a non-empty extension has that extension. |
| Settings.GetOutputFilePath | settings.go:71-73 | The output path joins the output directory with base + suffix + extension, and that file name keeps the log file's extension whatever the suffix. `OutputFileNames` adds that the empty suffix gives `Join(Dir(logPath), Base(logPath))`. |
| Settings.OutputFileNames | settings.go:71-73 | The output path is `Join(outputDir, base + suffix + ext)`. Whatever the suffix, it keeps the log file's extension. The empty suffix gives `Join(Dir(logPath), Base(logPath))`. |

## Left out

- File opening, `bufio` scanning and its line-length limit. Both inputs are
  given as sequences of lines; only the report's open error is modelled.
- log.go and the logger diagnostics. The test-id mismatch and parse-error
  messages of `parseQueries` only write to the log and are not modelled.
- The debug prints (analyzer.go:155-158, tree.go:32-43, tree.go:69).
- `AnalyzeTestRun`, `Test.String` and `Query.String`. These are report
  formatting and file output.
- main.go and main_test.go, an older snapshot of the program.
- `Filter` (utils.go:5-12), which the core never calls.
- `readInputs` flag parsing, and the `logger` field of `Settings`.
- The go-mysql-server parser, `sql.DebugString`, base64 decoding, the
  finished/errored log-record regexes and the patch regexes are not part of
  this model. Each is a parameter, and the patch regexes are not defined in
  any file of the repository.
- `filepath.Clean` is not part of this model: `Dir` and `Join` take it as a
  parameter.
- Tables.GetTablesUsed: `transform.Inspect` and `transform.InspectExpr`
  belong to go-mysql-server, which is not part of this model. The model
  assumes a full pre-order walk of nodes and of every sub-expression when
  the callback returns true (analyzer.go:329-340). If `InspectExpr` stops
  at the first `true`, a subquery that is not the first leaf of its
  expression (as in `x IN (subquery)`) would be missed, and the result
  would be a sub-list of the one the model gives.
- Ranking.SortGroups: `sort.SliceStable` sorts the slice in place. The model
  returns a sorted copy, built by insertion, whose contract is that of a
  sort; its stability is not stated, and `RankingDetermined` shows it is
  irrelevant here.
- Scan.ParseQueries: the source's `currentTest` pointer is modelled as an
  optional value, with no aliasing.
- Tree.DropExtraneousData: `transform.NodeWithOpaque` visits the tree bottom
  up and reports whether it changed; the model rewrites each node kind
  directly and does not model the same-tree flag.
- Where the source and its description differ, the model follows the
  source. Sentinel statements are still recorded, because the `continue`
  statements are commented out at analyzer.go:223-224 and 232-233. A
  statement that fails to parse is dropped rather than kept with no tree
  (analyzer.go:249-251). `parseQueries` does not canonicalise trees
  (analyzer.go:256-262).
- Go strings are byte strings; the model uses sequences of characters. The
  `<` of the ranking's third key is lexicographic on characters, which
  agrees with Go's byte order for UTF-8 text.
