/** `parseQueries` (analyzer.go:172-309): the scan of the server log that
    turns logged statements into `Query` records and attributes them to the
    test that was running.

    The log is given as its lines. What the scan gets from libraries is a
    parameter (`LogShapes`): the two log-record regexes (`finishedQueryRegex`,
    `errorQueryRegex`), base64 decoding, the SQL parser and
    `sql.DebugString`. The test sentinels are matched with the exact patterns
    of the Regex module. */
module Scan {
  import opened Common
  import opened Tree
  import opened Regex
  import opened Query
  import opened Tables

  /** `finishedQuery`: the query group of `finishedQueryRegex`, when the line
      matches it; `erroredQuery`: the error and query groups of
      `errorQueryRegex`; `decodeBase64`: `base64.StdEncoding.DecodeString`,
      `None` on a decoding error. */
  datatype LogShapes = LogShapes(
    finishedQuery: string -> Option<string>,
    erroredQuery: string -> Option<(string, string)>,
    decodeBase64: string -> Option<string>,
    parse: Parser,
    debugString: Node -> string)

  /** A test and the statements attributed to it (analyzer.go:37-42). */
  datatype Test = Test(id: string, failed: bool, queries: seq<Query>, tablesUsed: seq<string>)

  /** The statement logged on a line and its error text (analyzer.go:192-210):
      the finished shape is tried first, the errored shape, which alone carries
      an error, second; a line of neither shape, or whose statement is empty,
      yields nothing. A statement that decodes as base64 is replaced by its
      decoding (analyzer.go:213-216). */
  function Statement(shapes: LogShapes, line: string): (r: Option<(string, string)>)
    // the finished shape wins, and its statements carry no error
    ensures shapes.finishedQuery(line).Some? ==>
      && (r.Some? <==> shapes.finishedQuery(line).value != "")
      && (r.Some? ==> r.value.1 == "")
    // otherwise the errored shape decides, and supplies the error text
    ensures shapes.finishedQuery(line).None? && shapes.erroredQuery(line).Some? ==>
      && (r.Some? <==> shapes.erroredQuery(line).value.1 != "")
      && (r.Some? ==> r.value.1 == shapes.erroredQuery(line).value.0)
    ensures shapes.finishedQuery(line).None? && shapes.erroredQuery(line).None? ==> r.None?
    // a non-empty error text can only come from the errored shape
    ensures r.Some? && r.value.1 != "" ==>
      shapes.finishedQuery(line).None? && shapes.erroredQuery(line).Some?
    // the statement is the decoding of the captured text when that decodes,
    // and the captured text itself otherwise
    ensures r.Some? ==>
      var raw := if shapes.finishedQuery(line).Some? then shapes.finishedQuery(line).value
                 else shapes.erroredQuery(line).value.1;
      && raw != ""
      && (shapes.decodeBase64(raw).Some? ==> r.value.0 == shapes.decodeBase64(raw).value)
      && (shapes.decodeBase64(raw).None? ==> r.value.0 == raw)
  {
    var extracted: Option<(string, string)> :=
      (match shapes.finishedQuery(line)
       case Some(q) => Some((q, ""))
       case None =>
         (match shapes.erroredQuery(line)
          case Some((err, q)) => Some((q, err))
          case None => None));
    match extracted
    case None => None
    case Some((q, err)) =>
      if q == "" then None
      else
        var text := (match shapes.decodeBase64(q) case Some(d) => d case None => q);
        Some((text, err))
  }

  /** The test tracker (analyzer.go:218-234): the starting sentinel opens the
      test it names, the finished sentinel closes whatever test is open (a
      different id is only logged), any other statement leaves it alone. */
  function Track(testId: string, text: string): (r: string)
    // only a sentinel moves the tracker
    ensures r != testId ==> Match(StartingSentinel, text).Some? || Match(FinishedSentinel, text).Some?
    // the open test is always a single line
    ensures '\n' !in testId ==> '\n' !in r
  {
    match Match(StartingSentinel, text)
    case Some(g) =>
      assert '\n' !in g[0] by { CaptureHasNoNewline(StartingSentinel, text); assert g[0] in g; }
      g[0]
    case None => if Match(FinishedSentinel, text).Some? then "" else testId
  }

  /** The tracker after one more line. */
  function TrackLine(shapes: LogShapes, testId: string, line: string): string
  {
    match Statement(shapes, line)
    case None => testId
    case Some((text, _)) => Track(testId, text)
  }

  /** The tracker after the lines `lines`, starting with no test. */
  function StateAfter(shapes: LogShapes, lines: seq<string>): string
  {
    if lines == [] then ""
    else TrackLine(shapes, StateAfter(shapes, lines[..|lines| - 1]), lines[|lines| - 1])
  }

  /** `PyTestNameFromTestId` can be applied to the tracked id. */
  predicate Splittable(testId: string)
  {
    testId == "" || Match(TestIdShape, testId).Some?
  }

  /** The source panics (in `PyTestNameFromTestId`) as soon as the tracker
      holds an id without a dot; the scan is specified for logs where it does
      not. */
  predicate NoPanic(shapes: LogShapes, lines: seq<string>)
  {
    forall k | 0 <= k <= |lines| :: Splittable(StateAfter(shapes, lines[..k]))
  }

  lemma NoPanicPrefix(shapes: LogShapes, lines: seq<string>, j: nat)
    requires j <= |lines| && NoPanic(shapes, lines)
    ensures NoPanic(shapes, lines[..j])
  {
    forall k | 0 <= k <= j ensures Splittable(StateAfter(shapes, lines[..j][..k])) {
      assert lines[..j][..k] == lines[..k];
    }
  }

  /** The record a line adds, given the tracker before it
      (analyzer.go:236-276): nothing when the line holds no statement, when
      non-test statements are hidden and no test is open, or when the
      statement does not parse; sentinel statements are recorded like any
      other. */
  function LineRecord(shapes: LogShapes, hideNonTest: bool, failedIds: seq<string>, before: string,
                      lineNumber: nat, line: string): Option<Query>
    requires Splittable(TrackLine(shapes, before, line))
  {
    match Statement(shapes, line)
    case None => None
    case Some((text, err)) =>
      var id := Track(before, text);
      if hideNonTest && id == "" then None
      else
        match shapes.parse(text)
        case Err(_) => None
        case Ok(node) =>
          Some(Query(lineNumber, text, node, shapes.debugString(node), id,
                     id != "" && id in failedIds,
                     if id != "" then PyTestNameFromTestId(id) else "", err))
  }

  /** The records of the lines `lines`, in log order. */
  function Records(shapes: LogShapes, hideNonTest: bool, failedIds: seq<string>, lines: seq<string>): seq<Query>
    requires NoPanic(shapes, lines)
  {
    if lines == [] then []
    else
      var n := |lines|;
      NoPanicPrefix(shapes, lines, n - 1);
      assert lines[..n] == lines;
      Records(shapes, hideNonTest, failedIds, lines[..n - 1])
      + OptionSeq(LineRecord(shapes, hideNonTest, failedIds, StateAfter(shapes, lines[..n - 1]), n, lines[n - 1]))
  }

  /** The tables of a list of statements: those of each tree in turn. */
  function QueriesTables(qs: seq<Query>): seq<string>
  {
    if qs == [] then [] else QueriesTables(qs[..|qs| - 1]) + NodeTables(qs[|qs| - 1].node)
  }

  /** A test opened by its first statement (analyzer.go:286-291). */
  function OpenTest(q: Query): Test
  {
    Test(q.testId, q.testFailed, [q], AppendNew([], NodeTables(q.node)))
  }

  /** A test extended by one more statement (analyzer.go:293-298). */
  function ExtendTest(t: Test, q: Query): Test
  {
    t.(queries := t.queries + [q], tablesUsed := AppendNew(t.tablesUsed, NodeTables(q.node)))
  }

  /** The tests built from the test statements `qs` (analyzer.go:278-306):
      a statement extends the last test when it has that test's id and opens
      a new test otherwise. Statements without a test in between do not
      close a test, so an id that resumes extends the same test. */
  function GroupRuns(qs: seq<Query>): seq<Test>
  {
    if qs == [] then [] else GroupStep(GroupRuns(qs[..|qs| - 1]), qs[|qs| - 1])
  }

  /** One more statement: it extends the last test if it has that test's id,
      and opens a new test otherwise. */
  function GroupStep(ts: seq<Test>, q: Query): seq<Test>
  {
    if ts != [] && ts[|ts| - 1].id == q.testId then ts[..|ts| - 1] + [ExtendTest(ts[|ts| - 1], q)]
    else ts + [OpenTest(q)]
  }

  /** The tests, with the open one flushed. */
  function Flushed(tests: seq<Test>, current: Option<Test>): seq<Test>
  {
    tests + OptionSeq(current)
  }

  lemma RecordsSnoc(shapes: LogShapes, hideNonTest: bool, failedIds: seq<string>, lines: seq<string>, i: nat)
    requires i < |lines| && NoPanic(shapes, lines)
    ensures NoPanic(shapes, lines[..i]) && NoPanic(shapes, lines[..i + 1])
    ensures Splittable(TrackLine(shapes, StateAfter(shapes, lines[..i]), lines[i]))
    ensures StateAfter(shapes, lines[..i + 1]) == TrackLine(shapes, StateAfter(shapes, lines[..i]), lines[i])
    ensures Records(shapes, hideNonTest, failedIds, lines[..i + 1])
         == Records(shapes, hideNonTest, failedIds, lines[..i])
            + OptionSeq(LineRecord(shapes, hideNonTest, failedIds, StateAfter(shapes, lines[..i]), i + 1, lines[i]))
  {
    NoPanicPrefix(shapes, lines, i);
    NoPanicPrefix(shapes, lines, i + 1);
    assert lines[..i + 1][..i] == lines[..i];
    assert Splittable(StateAfter(shapes, lines[..i + 1]));
  }

  lemma GroupRunsSnoc(qs: seq<Query>, q: Query)
    ensures GroupRuns(qs + [q]) == GroupStep(GroupRuns(qs), q)
  {
    assert (qs + [q])[..|qs|] == qs;
  }

  /** Reading the statement of one line (analyzer.go:192-216). */
  method ReadStatement(shapes: LogShapes, line: string) returns (found: bool, query: string, queryError: string)
    ensures found <==> Statement(shapes, line).Some?
    ensures found ==> Statement(shapes, line) == Some((query, queryError))
    ensures shapes.finishedQuery(line).Some? ==>
      queryError == "" && (found <==> shapes.finishedQuery(line).value != "")
    ensures queryError != "" ==>
      && shapes.finishedQuery(line).None? && shapes.erroredQuery(line).Some?
      && queryError == shapes.erroredQuery(line).value.0
    ensures shapes.finishedQuery(line).None? && shapes.erroredQuery(line).None? ==> !found
  {
    var finishedParse := shapes.finishedQuery(line);
    var errorParse := shapes.erroredQuery(line);
    found, query, queryError := true, "", "";
    if finishedParse.Some? {
      query := finishedParse.value;
    } else if errorParse.Some? {
      query, queryError := errorParse.value.1, errorParse.value.0;
    } else {
      return false, "", "";
    }
    if query == "" {
      return false, "", "";
    }
    var decoded := shapes.decodeBase64(query);
    if decoded.Some? {
      query := decoded.value;
    }
  }

  /** Attributing a test statement to the open test or a new one
      (analyzer.go:278-300): the open test is extended when it has the
      statement's id, and otherwise pushed to `tests` and replaced. */
  method AttachToTest(tests: seq<Test>, current: Option<Test>, ghost qs: seq<Query>, q: Query)
    returns (tests': seq<Test>, current': Option<Test>)
    requires Flushed(tests, current) == GroupRuns(qs)
    requires current.None? ==> tests == []
    ensures Flushed(tests', current') == GroupRuns(qs + [q])
    ensures current'.Some?
  {
    GroupRunsSnoc(qs, q);
    var tablesUsed := GetTablesUsed(q.node);
    if current.None? || current.value.id != q.testId {
      tests' := tests + OptionSeq(current);
      current' := Some(Test(q.testId, q.testFailed, [q], tablesUsed));
    } else {
      var merged := MergeTables(current.value.tablesUsed, tablesUsed);
      AppendNewDedup(current.value.tablesUsed, NodeTables(q.node));
      tests' := tests;
      current' := Some(current.value.(queries := current.value.queries + [q], tablesUsed := merged));
    }
  }

  /** One iteration of the scan up to the recording of the statement
      (analyzer.go:189-275): the tracker after the line and the record the
      line yields, if any. */
  method ScanLine(shapes: LogShapes, hideNonTest: bool, failedIds: seq<string>, before: string,
                  lineNumber: nat, line: string)
    returns (testId: string, record: Option<Query>)
    requires Splittable(TrackLine(shapes, before, line))
    ensures testId == TrackLine(shapes, before, line)
    ensures record == LineRecord(shapes, hideNonTest, failedIds, before, lineNumber, line)
    ensures record.Some? ==> record.value.testId == testId
  {
    testId, record := before, None;
    var found, query, queryError := ReadStatement(shapes, line);
    if !found {
      return;
    }

    var testStartingParse := Match(StartingSentinel, query);
    var testFinishedParse := Match(FinishedSentinel, query);
    if testStartingParse.Some? {
      testId := testStartingParse.value[0];
    } else if testFinishedParse.Some? {
      testId := "";
    }

    if hideNonTest && testId == "" {
      return;
    }

    var testFailed := false;
    var pyTestName := "";
    if testId != "" {
      pyTestName := PyTestNameFromTestId(testId);
      testFailed := testId in failedIds;
    }

    var parsed := shapes.parse(query);
    if parsed.Err? {
      return;
    }
    var node := parsed.value;
    record := Some(Query(lineNumber, query, node, shapes.debugString(node), testId,
                         testFailed, pyTestName, queryError));
  }

  /** `parseQueries` (analyzer.go:172-309) over the lines of the log: the
      collection holds exactly the records of the lines, and the tests are
      the test statements grouped into runs. */
  method ParseQueries(shapes: LogShapes, hideNonTest: bool, failedIds: seq<string>, lines: seq<string>)
    returns (collection: QueryCollection, tests: seq<Test>)
    requires NoPanic(shapes, lines)
    ensures fresh(collection) && collection.Valid() && collection.debugString == shapes.debugString
    ensures collection.all == Records(shapes, hideNonTest, failedIds, lines)
    ensures tests == GroupRuns(collection.testQueries)
  {
    collection := new QueryCollection(shapes.debugString);
    tests := [];
    var current: Option<Test> := None;
    var testId := "";
    var lineNumber := 0;
    while lineNumber < |lines|
      invariant 0 <= lineNumber <= |lines|
      invariant collection.Valid() && collection.debugString == shapes.debugString
      invariant testId == StateAfter(shapes, lines[..lineNumber])
      invariant NoPanic(shapes, lines[..lineNumber])
      invariant collection.all == Records(shapes, hideNonTest, failedIds, lines[..lineNumber])
      invariant Flushed(tests, current) == GroupRuns(collection.testQueries)
      invariant current.None? ==> tests == []
    {
      RecordsSnoc(shapes, hideNonTest, failedIds, lines, lineNumber);
      var line := lines[lineNumber];
      lineNumber := lineNumber + 1;

      var record;
      testId, record := ScanLine(shapes, hideNonTest, failedIds, testId, lineNumber, line);
      if record.None? {
        continue;
      }
      var queryObj := record.value;
      ghost var oldTestQueries := collection.testQueries;
      collection.Add(queryObj);

      if testId != "" {
        assert collection.testQueries == oldTestQueries + [queryObj];
        tests, current := AttachToTest(tests, current, oldTestQueries, queryObj);
      } else {
        assert collection.testQueries == oldTestQueries + [];
        assert oldTestQueries + [] == oldTestQueries;
      }
    }
    assert lines[..lineNumber] == lines;
    if current.Some? {
      tests := tests + [current.value];
    }
  }

  /** The statements of the tests, test after test. */
  function Flatten(ts: seq<Test>): seq<Query>
  {
    if ts == [] then [] else Flatten(ts[..|ts| - 1]) + ts[|ts| - 1].queries
  }

  /** A well-formed test: it has statements, all with its id, and its table
      list is the distinct tables of those statements in first-met order. */
  predicate WellFormedTest(t: Test)
  {
    && t.queries != []
    && (forall q | q in t.queries :: q.testId == t.id)
    && t.tablesUsed == AppendNew([], QueriesTables(t.queries))
  }

  lemma FlattenSnoc(ts: seq<Test>, t: Test)
    ensures Flatten(ts + [t]) == Flatten(ts) + t.queries
  {
    assert (ts + [t])[..|ts|] == ts;
  }

  /** The grouping loses, reorders and duplicates nothing. */
  lemma {:induction false} GroupRunsFlatten(qs: seq<Query>)
    ensures Flatten(GroupRuns(qs)) == qs
    decreases |qs|
  {
    if qs != [] {
      var pre := qs[..|qs| - 1];
      var q := qs[|qs| - 1];
      GroupRunsFlatten(pre);
      FlattenGroupStep(GroupRuns(pre), q);
      FrontLast(qs);
    }
  }

  /** One grouping step adds the statement at the end of the flattening. */
  lemma FlattenGroupStep(ts: seq<Test>, q: Query)
    ensures Flatten(GroupStep(ts, q)) == Flatten(ts) + [q]
  {
    if ts != [] && ts[|ts| - 1].id == q.testId {
      var last := ts[|ts| - 1];
      var init := ts[..|ts| - 1];
      FrontLast(ts);
      FlattenSnoc(init, last);
      FlattenSnoc(init, ExtendTest(last, q));
    } else {
      FlattenSnoc(ts, OpenTest(q));
    }
  }

  /** Every test is well formed. */
  lemma {:induction false} GroupRunsWellFormed(qs: seq<Query>)
    ensures forall t | t in GroupRuns(qs) :: WellFormedTest(t)
    decreases |qs|
  {
    if qs != [] {
      var pre := qs[..|qs| - 1];
      var q := qs[|qs| - 1];
      GroupRunsWellFormed(pre);
      var ts := GroupRuns(pre);
      if ts != [] && ts[|ts| - 1].id == q.testId {
        ExtendWellFormed(ts[|ts| - 1], q);
        assert forall t | t in ts[..|ts| - 1] :: t in ts;
      } else {
        assert QueriesTables([q]) == NodeTables(q.node) by {
          assert [q][..0] == [];
        }
      }
    }
  }

  /** Two adjacent tests never share an id: statements of one test separated
      only by statements without a test stay in one test. */
  lemma {:induction false} GroupRunsAdjacentDistinct(qs: seq<Query>)
    ensures forall i | 0 <= i < |GroupRuns(qs)| - 1 :: GroupRuns(qs)[i].id != GroupRuns(qs)[i + 1].id
    decreases |qs|
  {
    if qs != [] {
      var pre := qs[..|qs| - 1];
      var q := qs[|qs| - 1];
      GroupRunsAdjacentDistinct(pre);
      var ts := GroupRuns(pre);
      var ts' := GroupRuns(qs);
      if ts != [] && ts[|ts| - 1].id == q.testId {
        assert |ts'| == |ts| && forall i | 0 <= i < |ts| :: ts'[i].id == ts[i].id;
        forall i | 0 <= i < |ts'| - 1 ensures ts'[i].id != ts'[i + 1].id {
          assert ts'[i].id == ts[i].id && ts'[i + 1].id == ts[i + 1].id;
          assert 0 <= i < |ts| - 1;
        }
      } else {
        assert forall i | 0 <= i < |ts| :: ts'[i] == ts[i];
      }
    }
  }

  lemma ExtendWellFormed(t: Test, q: Query)
    requires WellFormedTest(t) && q.testId == t.id
    ensures WellFormedTest(ExtendTest(t, q))
  {
    var qs := t.queries + [q];
    assert qs[..|qs| - 1] == t.queries;
    assert QueriesTables(qs) == QueriesTables(t.queries) + NodeTables(q.node);
    AppendNewConcat([], QueriesTables(t.queries), NodeTables(q.node));
  }

  /** A test's table list holds each table once. */
  lemma TablesUsedDistinct(t: Test)
    requires WellFormedTest(t)
    ensures NoDup(t.tablesUsed)
    ensures forall x :: x in t.tablesUsed <==> x in QueriesTables(t.queries)
  {
    AppendNewSpec([], QueriesTables(t.queries));
  }

  /** When every statement's failure flag says whether its id is among the
      failed ids, so does every test's. */
  lemma {:induction false} GroupRunsFailed(qs: seq<Query>, failedIds: seq<string>)
    requires forall q | q in qs :: q.testFailed == (q.testId in failedIds)
    ensures forall t | t in GroupRuns(qs) :: t.failed == (t.id in failedIds)
    decreases |qs|
  {
    if qs != [] {
      var pre := qs[..|qs| - 1];
      assert forall q | q in pre :: q in qs;
      GroupRunsFailed(pre, failedIds);
      var ts := GroupRuns(pre);
      if ts != [] {
        assert forall t | t in ts[..|ts| - 1] :: t in ts;
      }
    }
  }

  /** What a record says about the line it came from: the line holds its
      statement and error text, its test id is the tracker after that line,
      the failure flag says whether that id is among the failed ids, and the
      statement parsed to its tree. */
  predicate RecordOfLine(shapes: LogShapes, hideNonTest: bool, failedIds: seq<string>,
                         lines: seq<string>, r: Query)
    requires NoPanic(shapes, lines)
  {
    && 1 <= r.lineNumber <= |lines|
    && Statement(shapes, lines[r.lineNumber - 1]) == Some((r.text, r.error))
    && r.testId == StateAfter(shapes, lines[..r.lineNumber])
    && (hideNonTest ==> r.testId != "")
    && (r.testFailed <==> r.testId != "" && r.testId in failedIds)
    && r.pyTestName == (if r.testId != "" then PyTestNameFromTestId(r.testId) else "")
    && shapes.parse(r.text) == Ok(r.node)
    && r.nodeDebug == shapes.debugString(r.node)
  }

  /** Every record comes from its own line. */
  lemma {:induction false} RecordsSound(shapes: LogShapes, hideNonTest: bool, failedIds: seq<string>, lines: seq<string>)
    requires NoPanic(shapes, lines)
    ensures forall r | r in Records(shapes, hideNonTest, failedIds, lines) ::
      RecordOfLine(shapes, hideNonTest, failedIds, lines, r)
    decreases |lines|
  {
    if lines != [] {
      var n := |lines|;
      var pre := lines[..n - 1];
      RecordsSnoc(shapes, hideNonTest, failedIds, lines, n - 1);
      assert lines[..n] == lines;
      RecordsSound(shapes, hideNonTest, failedIds, pre);
      var ps := Records(shapes, hideNonTest, failedIds, pre);
      var o := LineRecord(shapes, hideNonTest, failedIds, StateAfter(shapes, pre), n, lines[n - 1]);
      forall r | r in ps + OptionSeq(o)
        ensures RecordOfLine(shapes, hideNonTest, failedIds, lines, r)
      {
        if r in ps {
          RecordOfLongerLog(shapes, hideNonTest, failedIds, lines, n - 1, r);
        } else {
          LastRecordOfLine(shapes, hideNonTest, failedIds, lines);
        }
      }
    }
  }

  /** The record of a log's last line, if any, comes from that line. */
  lemma LastRecordOfLine(shapes: LogShapes, hideNonTest: bool, failedIds: seq<string>, lines: seq<string>)
    requires NoPanic(shapes, lines) && lines != []
    ensures var n := |lines|;
      NoPanic(shapes, lines[..n - 1]) &&
      Splittable(TrackLine(shapes, StateAfter(shapes, lines[..n - 1]), lines[n - 1])) &&
      var o := LineRecord(shapes, hideNonTest, failedIds, StateAfter(shapes, lines[..n - 1]), n, lines[n - 1]);
      o.Some? ==> RecordOfLine(shapes, hideNonTest, failedIds, lines, o.value)
  {
    var n := |lines|;
    var pre := lines[..n - 1];
    NoPanicPrefix(shapes, lines, n - 1);
    assert StateAfter(shapes, lines) == TrackLine(shapes, StateAfter(shapes, pre), lines[n - 1]);
    assert lines[..n] == lines;
    RecordOfLastLine(shapes, hideNonTest, failedIds, lines, StateAfter(shapes, pre));
  }

  /** The record that the last line gives after the tracker state `before`
      comes from that line, if the tracker then reaches the log's state. */
  lemma RecordOfLastLine(shapes: LogShapes, hideNonTest: bool, failedIds: seq<string>,
                         lines: seq<string>, before: string)
    requires NoPanic(shapes, lines) && lines != []
    requires StateAfter(shapes, lines) == TrackLine(shapes, before, lines[|lines| - 1])
    ensures Splittable(TrackLine(shapes, before, lines[|lines| - 1]))
    ensures var o := LineRecord(shapes, hideNonTest, failedIds, before, |lines|, lines[|lines| - 1]);
      o.Some? ==> RecordOfLine(shapes, hideNonTest, failedIds, lines, o.value)
  {
    var n := |lines|;
    assert lines[..n] == lines;
    assert Splittable(StateAfter(shapes, lines[..n]));
    var o := LineRecord(shapes, hideNonTest, failedIds, before, n, lines[n - 1]);
    if o.Some? {
      LineRecordFacts(shapes, hideNonTest, failedIds, before, n, lines[n - 1]);
    }
  }

  /** The records are in line order, at most one per line. */
  lemma {:induction false} RecordsOrdered(shapes: LogShapes, hideNonTest: bool, failedIds: seq<string>, lines: seq<string>)
    requires NoPanic(shapes, lines)
    ensures var rs := Records(shapes, hideNonTest, failedIds, lines);
      forall i, j | 0 <= i < j < |rs| :: rs[i].lineNumber < rs[j].lineNumber
    decreases |lines|
  {
    if lines != [] {
      var n := |lines|;
      var pre := lines[..n - 1];
      RecordsSnoc(shapes, hideNonTest, failedIds, lines, n - 1);
      assert lines[..n] == lines;
      RecordsOrdered(shapes, hideNonTest, failedIds, pre);
      RecordsSound(shapes, hideNonTest, failedIds, pre);
      var ps := Records(shapes, hideNonTest, failedIds, pre);
      var o := LineRecord(shapes, hideNonTest, failedIds, StateAfter(shapes, pre), n, lines[n - 1]);
      if o.Some? {
        LineRecordFacts(shapes, hideNonTest, failedIds, StateAfter(shapes, pre), n, lines[n - 1]);
      }
      assert forall r | r in ps :: r.lineNumber < n;
      OrderedSnoc(ps, OptionSeq(o), n);
    }
  }

  /** Appending at most one record of line `n` after records of earlier
      lines keeps the records in line order. */
  lemma OrderedSnoc(ps: seq<Query>, extra: seq<Query>, n: int)
    requires forall i, j | 0 <= i < j < |ps| :: ps[i].lineNumber < ps[j].lineNumber
    requires forall r | r in ps :: r.lineNumber < n
    requires |extra| <= 1 && forall r | r in extra :: r.lineNumber == n
    ensures var rs := ps + extra;
      forall i, j | 0 <= i < j < |rs| :: rs[i].lineNumber < rs[j].lineNumber
  {
    var rs := ps + extra;
    forall i, j | 0 <= i < j < |rs| ensures rs[i].lineNumber < rs[j].lineNumber {
      assert rs[i] == ps[i] && ps[i] in ps;
      if j >= |ps| {
        assert rs[j] == extra[0] && extra[0] in extra;
      } else {
        assert rs[j] == ps[j];
      }
    }
  }

  lemma RecordOfLongerLog(shapes: LogShapes, hideNonTest: bool, failedIds: seq<string>, lines: seq<string>,
                          j: nat, r: Query)
    requires j <= |lines| && NoPanic(shapes, lines) && NoPanic(shapes, lines[..j])
    requires RecordOfLine(shapes, hideNonTest, failedIds, lines[..j], r)
    ensures RecordOfLine(shapes, hideNonTest, failedIds, lines, r) && r.lineNumber <= j
  {
    assert lines[..j][..r.lineNumber] == lines[..r.lineNumber];
    assert lines[..j][r.lineNumber - 1] == lines[r.lineNumber - 1];
  }

  lemma LineRecordFacts(shapes: LogShapes, hideNonTest: bool, failedIds: seq<string>, before: string,
                        lineNumber: nat, line: string)
    requires Splittable(TrackLine(shapes, before, line))
    requires LineRecord(shapes, hideNonTest, failedIds, before, lineNumber, line).Some?
    ensures var r := LineRecord(shapes, hideNonTest, failedIds, before, lineNumber, line).value;
      && r.lineNumber == lineNumber
      && Statement(shapes, line) == Some((r.text, r.error))
      && r.testId == TrackLine(shapes, before, line)
      && (hideNonTest ==> r.testId != "")
      && (r.testFailed <==> r.testId != "" && r.testId in failedIds)
      && r.pyTestName == (if r.testId != "" then PyTestNameFromTestId(r.testId) else "")
      && shapes.parse(r.text) == Ok(r.node)
      && r.nodeDebug == shapes.debugString(r.node)
  {
  }

  /** A line that yields no record (no statement, a hidden non-test
      statement, or a statement that does not parse) leaves the records as
      they were; a line without a statement leaves the tracker too. */
  lemma LineDropped(shapes: LogShapes, hideNonTest: bool, failedIds: seq<string>, lines: seq<string>, line: string)
    requires NoPanic(shapes, lines + [line])
    requires match Statement(shapes, line)
      case None => true
      case Some((text, _)) => (hideNonTest && Track(StateAfter(shapes, lines), text) == "") || shapes.parse(text).Err?
    ensures NoPanic(shapes, lines)
    ensures Records(shapes, hideNonTest, failedIds, lines + [line]) == Records(shapes, hideNonTest, failedIds, lines)
    ensures Statement(shapes, line).None? ==> StateAfter(shapes, lines + [line]) == StateAfter(shapes, lines)
  {
    RecordsSnoc(shapes, hideNonTest, failedIds, lines + [line], |lines|);
    assert (lines + [line])[..|lines|] == lines;
    assert (lines + [line])[..|lines| + 1] == lines + [line];
  }

  /** A statement that does not parse is not recorded. */
  lemma ParseFailureDropped(shapes: LogShapes, hideNonTest: bool, failedIds: seq<string>, lines: seq<string>,
                            line: string, text: string, err: string)
    requires NoPanic(shapes, lines + [line])
    requires Statement(shapes, line) == Some((text, err)) && shapes.parse(text).Err?
    ensures NoPanic(shapes, lines)
    ensures Records(shapes, hideNonTest, failedIds, lines + [line]) == Records(shapes, hideNonTest, failedIds, lines)
  {
    LineDropped(shapes, hideNonTest, failedIds, lines, line);
  }

  /** The statements the test harness issues around each test (analyzer.go
      sentinels, regex.go:11-14). */
  function StartingText(id: string): string
  {
    "select 'dolt: setUp, test id = " + id + "'"
  }

  function FinishedText(id: string): string
  {
    "select 'dolt: _post_teardown, test id = " + id + "'"
  }

  /** A finished sentinel is never taken for a starting one: the only quote
      the starting prefix has (after "select ") cannot line up with a quote of
      the finished statement. */
  lemma FinishedIsNotStarting(id: string)
    requires '\n' !in id && '\'' !in id
    ensures Match(StartingSentinel, FinishedText(id)) == None
  {
    var t := FinishedText(id);
    FinishedTextOneLine(id);
    StartingPrefixAbsent(id);
    SingleLine(StartingSentinel, t);
    AbsentPrefixNoMatch(StartingSentinel, t, 0);
  }

  lemma FinishedTextOneLine(id: string)
    requires '\n' !in id
    ensures '\n' !in FinishedText(id)
  {
    var t := FinishedText(id);
    var pf := "select 'dolt: _post_teardown, test id = ";
    assert t == pf + id + "'";
    assert '\n' !in pf;
    forall k | 0 <= k < |t| ensures t[k] != '\n' {
      if k < |pf| { assert t[k] == pf[k]; }
      else if k < |pf| + |id| { assert t[k] == id[k - |pf|]; }
    }
  }

  lemma StartingPrefixAbsent(id: string)
    requires '\'' !in id
    ensures !ContainsStr(FinishedText(id), StartingSentinel.prefix)
  {
    var t := FinishedText(id);
    var pf := "select 'dolt: _post_teardown, test id = ";
    var ps := StartingSentinel.prefix;
    SentinelPrefixQuotes();
    QuotedAfter(pf, id);
    QuoteMisaligned(t, ps);
  }

  /** Where the quotes of the two sentinel prefixes sit, and where the
      prefixes first differ after them. */
  lemma SentinelPrefixQuotes()
    ensures var ps := StartingSentinel.prefix;
      ps[7] == '\'' && ps[14] == 's' && |ps| > 14
    ensures var pf := "select 'dolt: _post_teardown, test id = ";
      pf[14] == '_' && |pf| > 14 && forall k | 8 <= k < |pf| :: pf[k] != '\''
  {
  }

  /** `pf + id + "'"` keeps the quote-free stretch of `pf` from 8 on and
      the quote-free `id`, and agrees with `pf` at 14. */
  lemma QuotedAfter(pf: string, id: string)
    requires |pf| > 14 && '\'' !in id
    requires forall k | 8 <= k < |pf| :: pf[k] != '\''
    ensures var t := pf + id + "'";
      t[14] == pf[14] && forall k | 8 <= k < |t| - 1 :: t[k] != '\''
  {
    var t := pf + id + "'";
    forall k | 8 <= k < |t| - 1 ensures t[k] != '\'' {
      if k < |pf| {
        assert t[k] == pf[k];
      } else {
        assert t[k] == id[k - |pf|];
      }
    }
  }

  /** A string whose only quotes are at 7 and at its end cannot contain a
      pattern with a quote at 7 that differs from it at 14. */
  lemma QuoteMisaligned(t: string, ps: string)
    requires |ps| > 14 && ps[7] == '\''
    requires |t| > 14 && t[14] != ps[14]
    requires forall k | 8 <= k < |t| - 1 :: t[k] != '\''
    ensures !ContainsStr(t, ps)
  {
    forall j | 0 <= j <= |t| ensures !OccursAt(t, ps, j) {
      if j + |ps| <= |t| {
        var w := t[j..j + |ps|];
        if j == 0 {
          assert w[14] == t[14];
        } else {
          assert w[7] == t[j + 7];
        }
      }
    }
  }

  lemma StateAfterSnoc(shapes: LogShapes, lines: seq<string>, line: string)
    ensures StateAfter(shapes, lines + [line]) == TrackLine(shapes, StateAfter(shapes, lines), line)
  {
    assert (lines + [line])[..|lines|] == lines;
  }

  /** The starting sentinel opens the test it names, whatever was open. */
  lemma StartingSentinelOpensTest(shapes: LogShapes, lines: seq<string>, line: string, id: string, err: string)
    requires '\n' !in id
    requires Statement(shapes, line) == Some((StartingText(id), err))
    ensures StateAfter(shapes, lines + [line]) == id
  {
    StateAfterSnoc(shapes, lines, line);
    StartingSentinelCaptures(id);
  }

  /** The finished sentinel closes the open test, whether or not it names
      that test: a mismatch is only reported. */
  lemma FinishedSentinelClosesTest(shapes: LogShapes, lines: seq<string>, line: string, id: string, err: string)
    requires '\n' !in id && '\'' !in id
    requires Statement(shapes, line) == Some((FinishedText(id), err))
    ensures StateAfter(shapes, lines + [line]) == ""
  {
    StateAfterSnoc(shapes, lines, line);
    FinishedIsNotStarting(id);
    FinishedSentinelCaptures(id);
    assert Track(StateAfter(shapes, lines), FinishedText(id)) == "";
  }

  /** Sentinel statements are recorded like any other: a starting sentinel
      that parses is recorded under the test it opens. */
  lemma StartingSentinelRecorded(shapes: LogShapes, hideNonTest: bool, failedIds: seq<string>,
                                 lines: seq<string>, line: string, id: string, err: string)
    requires '\n' !in id && '.' in id
    requires Statement(shapes, line) == Some((StartingText(id), err))
    requires shapes.parse(StartingText(id)).Ok?
    ensures Splittable(TrackLine(shapes, StateAfter(shapes, lines), line))
    ensures var r := LineRecord(shapes, hideNonTest, failedIds, StateAfter(shapes, lines), |lines| + 1, line);
      r.Some? && r.value.text == StartingText(id) && r.value.testId == id
      && r.value.testFailed == (id in failedIds)
  {
    StartingSentinelCaptures(id);
    SplitAtLastDot(id);
  }

  /** Conversely, a line whose statement is shown and parses is recorded:
      the records grow by exactly one, which carries that line's number,
      statement, error text and tree, and the tracker after that line. */
  lemma LineRecorded(shapes: LogShapes, hideNonTest: bool, failedIds: seq<string>,
                     lines: seq<string>, line: string, text: string, err: string)
    requires NoPanic(shapes, lines + [line])
    requires Statement(shapes, line) == Some((text, err)) && shapes.parse(text).Ok?
    requires !(hideNonTest && Track(StateAfter(shapes, lines), text) == "")
    ensures NoPanic(shapes, lines)
    ensures var before := Records(shapes, hideNonTest, failedIds, lines);
      var rs := Records(shapes, hideNonTest, failedIds, lines + [line]);
      && |rs| == |before| + 1 && rs[..|before|] == before
      && rs[|before|].lineNumber == |lines| + 1
      && rs[|before|].text == text && rs[|before|].error == err
      && rs[|before|].node == shapes.parse(text).value
      && rs[|before|].testId == StateAfter(shapes, lines + [line])
  {
    var all := lines + [line];
    RecordsSnoc(shapes, hideNonTest, failedIds, all, |lines|);
    assert all[..|lines|] == lines;
    assert all[..|lines| + 1] == all;
    var o := LineRecord(shapes, hideNonTest, failedIds, StateAfter(shapes, lines), |lines| + 1, line);
    assert o.Some?;
    LineRecordFacts(shapes, hideNonTest, failedIds, StateAfter(shapes, lines), |lines| + 1, line);
  }

  /** Sentinel statements are recorded like any other: a finished sentinel
      that parses is recorded, outside any test, unless non-test statements
      are hidden, in which case it adds nothing. */
  lemma FinishedSentinelRecorded(shapes: LogShapes, hideNonTest: bool, failedIds: seq<string>,
                                 lines: seq<string>, line: string, id: string, err: string)
    requires '\n' !in id && '\'' !in id
    requires NoPanic(shapes, lines + [line])
    requires Statement(shapes, line) == Some((FinishedText(id), err))
    requires shapes.parse(FinishedText(id)).Ok?
    ensures NoPanic(shapes, lines)
    ensures var before := Records(shapes, hideNonTest, failedIds, lines);
      var rs := Records(shapes, hideNonTest, failedIds, lines + [line]);
      && (hideNonTest ==> rs == before)
      && (!hideNonTest ==>
            && |rs| == |before| + 1
            && rs[|before|].lineNumber == |lines| + 1
            && rs[|before|].text == FinishedText(id)
            && rs[|before|].testId == "" && !rs[|before|].testFailed)
  {
    FinishedSentinelClosesTest(shapes, lines, line, id, err);
    StateAfterSnoc(shapes, lines, line);
    assert Track(StateAfter(shapes, lines), FinishedText(id)) == "";
    if hideNonTest {
      LineDropped(shapes, hideNonTest, failedIds, lines, line);
    } else {
      LineRecorded(shapes, hideNonTest, failedIds, lines, line, FinishedText(id), err);
      var before := Records(shapes, hideNonTest, failedIds, lines);
      var rs := Records(shapes, hideNonTest, failedIds, lines + [line]);
      RecordsSound(shapes, hideNonTest, failedIds, lines + [line]);
      assert rs[|before|] in rs;
    }
  }

  /** The tests of a scan: each has a non-empty id, statements all with that
      id, a failure flag that says whether the id is among the failed ids,
      and a duplicate-free table list; adjacent tests have different ids; and
      together they hold every test statement once, in log order. */
  lemma ScanTests(shapes: LogShapes, hideNonTest: bool, failedIds: seq<string>, lines: seq<string>)
    requires NoPanic(shapes, lines)
    ensures var qs := TestOnly(Records(shapes, hideNonTest, failedIds, lines));
      var ts := GroupRuns(qs);
      && Flatten(ts) == qs
      && (forall i | 0 <= i < |ts| - 1 :: ts[i].id != ts[i + 1].id)
      && (forall t | t in ts ::
            && t.id != "" && WellFormedTest(t) && NoDup(t.tablesUsed)
            && t.failed == (t.id in failedIds)
            && (forall q | q in t.queries :: q.testFailed == t.failed))
  {
    var rs := Records(shapes, hideNonTest, failedIds, lines);
    var qs := TestOnly(rs);
    RecordsSound(shapes, hideNonTest, failedIds, lines);
    TestOnlySpec(rs);
    GroupRunsFailed(qs, failedIds);
    GroupRunsFlatten(qs);
    GroupRunsWellFormed(qs);
    GroupRunsAdjacentDistinct(qs);
    var ts := GroupRuns(qs);
    forall t | t in ts
      ensures t.id != "" && NoDup(t.tablesUsed)
      ensures forall q | q in t.queries :: q.testFailed == t.failed
    {
      TablesUsedDistinct(t);
      var q0 := t.queries[0];
      FlattenMember(ts, t, q0);
      forall q | q in t.queries ensures q.testFailed == t.failed {
        FlattenMember(ts, t, q);
      }
    }
  }

  lemma {:induction false} FlattenMember(ts: seq<Test>, t: Test, q: Query)
    requires t in ts && q in t.queries
    ensures q in Flatten(ts)
    decreases |ts|
  {
    var last := ts[|ts| - 1];
    if t != last {
      assert t in ts[..|ts| - 1];
      FlattenMember(ts[..|ts| - 1], t, q);
    }
  }
}
