/** `parsePytestReport` (analyzer.go:100-170): the reader of the test
    runner's report. Past the separator line it collects the ids of failed
    and errored tests; before it, a line announcing a patch query makes the
    next line be read as that query's result.

    The report file is given by what opening it produced. The two patch
    regexes, which no file of the repository defines, and the lenient base64
    decoding are parameters (`ReportShapes`). */
module Report {
  import opened Common
  import opened Regex

  /** `pytestReportSeparator` (analyzer.go:70): seventy '='. */
  const Separator := Repeat('=', SeparatorWidth)
  const SeparatorWidth := 70

  /** `n` copies of `c`. */
  function Repeat(c: char, n: nat): (r: string)
    ensures |r| == n && forall k | 0 <= k < n :: r[k] == c
  {
    if n == 0 then "" else Repeat(c, n - 1) + [c]
  }

  /** `.*, '(.*)'.*` (analyzer.go:145): the text between the last ", '" that
      has a quote after it and the last quote. */
  const PatchItem := Pair("", ", '", '\'', false)

  /** What opening the report file gave: its lines, or the error. */
  datatype ReportFile = Lines(lines: seq<string>) | OpenFailed(error: string)

  /** `patchTable`: the groups of `pyTestPatchRegex` on a line, when it
      matches; `patchResult`: those of `pyTestPatchResultRegex`;
      `decodeLenient`: `base64.StdEncoding.DecodeString` with its error
      ignored (the bytes decoded before the error). */
  datatype ReportShapes = ReportShapes(
    patchTable: string -> Option<seq<string>>,
    patchResult: string -> Option<seq<string>>,
    decodeLenient: string -> string)

  /** A patch query read from the report (analyzer.go:31-35). */
  datatype PatchQuery = PatchQuery(lineNumber: nat, tableName: string, queries: seq<string>)

  /** The reader's result: the failed ids, the patch queries and the open
      error, or the line at which the source panics. */
  datatype ReportOutcome =
    | Done(failedIds: seq<string>, patchQueries: seq<PatchQuery>, err: Option<string>)
    | Panicked(lineNumber: nat)

  /** The id `suite.name` of a `FAIL: name (suite)` line or, failing that, of
      an `ERROR: name (suite)` line (analyzer.go:124-133). */
  function FailedIdOfLine(line: string): (r: Option<string>)
    ensures r.Some? <==> Match(FailedLine, line).Some? || Match(ErroredLine, line).Some?
    // every id found is a single-line `suite.name`
    ensures r.Some? ==> '\n' !in r.value && '.' in r.value && Match(TestIdShape, r.value).Some?
  {
    match Match(FailedLine, line)
    case Some(_) => Some(DottedId(FailedLine, line))
    case None =>
      match Match(ErroredLine, line)
      case Some(_) => Some(DottedId(ErroredLine, line))
      case None => None
  }

  /** `suite.name` from the two groups `name` and `suite` of a match. */
  function DottedId(p: Pattern, line: string): (id: string)
    requires Match(p, line).Some? && |Match(p, line).value| == 2
    ensures '\n' !in id && '.' in id && Match(TestIdShape, id).Some?
  {
    var g := Match(p, line).value;
    assert '\n' !in g[1] + "." + g[0] && Match(TestIdShape, g[1] + "." + g[0]).Some? by {
      CaptureHasNoNewline(p, line);
      assert g[0] in g && g[1] in g;
      DottedOneLine(g[1], g[0]);
    }
    g[1] + "." + g[0]
  }

  /** Index of the first separator line, or the number of lines. */
  function FirstSeparator(lines: seq<string>): (s: nat)
    ensures s <= |lines|
    ensures s < |lines| ==> lines[s] == Separator
    ensures forall i | 0 <= i < s :: lines[i] != Separator
  {
    if lines == [] then 0
    else if lines[0] == Separator then 0
    else 1 + FirstSeparator(lines[1..])
  }

  /** The failed ids of some lines, in order, duplicates kept. */
  function FailedIdsOf(lines: seq<string>): seq<string>
  {
    if lines == [] then []
    else FailedIdsOf(lines[..|lines| - 1]) + OptionSeq(FailedIdOfLine(lines[|lines| - 1]))
  }

  /** The queries of a patch-query result (analyzer.go:142-150): the result
      is split into items at "), (", each item loses its `\n` escapes, and
      the quoted base64 text in it is decoded; an item without a quoted part
      makes the source panic (`None`). */
  function DecodeItems(shapes: ReportShapes, items: seq<string>): (r: Option<seq<string>>)
    ensures r.Some? ==> |r.value| == |items|
  {
    if items == [] then Some([])
    else
      match DecodeItems(shapes, items[..|items| - 1])
      case None => None
      case Some(qs) =>
        var item := RemoveAll(items[|items| - 1], "\\n");
        match Match(PatchItem, item)
        case None => None
        case Some(g) => Some(qs + [shapes.decodeLenient(g[0])])
  }

  /** The patch query held by the line after an announcement
      (analyzer.go:136-151): its line number, the announced table and the
      decoded items of the first group of the result regex. `None` where the
      source panics: no match, no group, or an item without a quoted part. */
  function PatchResult(shapes: ReportShapes, lineNumber: nat, table: string, line: string): Option<PatchQuery>
  {
    match shapes.patchResult(line)
    case None => None
    case Some(groups) =>
      if groups == [] then None
      else
        match DecodeItems(shapes, SplitOn(groups[0], "), ("))
        case None => None
        case Some(queries) => Some(PatchQuery(lineNumber, table, queries))
  }

  /** The reader's state between lines. */
  datatype ReaderState = ReaderState(
    separatorSeen: bool,
    nextLineHasPatchQuery: bool,
    patchQueryTargetTable: string,
    failedIds: seq<string>,
    patchQueries: seq<PatchQuery>)

  const Start := ReaderState(false, false, "", [], [])

  /** One line of the report (analyzer.go:116-165); `Err(n)` is a panic on
      line `n`. */
  function ReadLine(shapes: ReportShapes, st: ReaderState, lineNumber: nat, line: string): (r: Result<ReaderState, nat>)
    // the only panic: an unreadable line after a patch-query announcement
    ensures r.Err? ==>
      && r.error == lineNumber && !st.separatorSeen && line != Separator && st.nextLineHasPatchQuery
    // the lists only grow, and the separator is never forgotten
    ensures r.Ok? ==>
      && st.failedIds <= r.value.failedIds && st.patchQueries <= r.value.patchQueries
      && (st.separatorSeen || line == Separator <==> r.value.separatorSeen)
    // failed ids are collected only after the separator, patch queries only before it
    ensures r.Ok? && !r.value.separatorSeen ==> r.value.failedIds == st.failedIds
    ensures r.Ok? && r.value.separatorSeen ==> r.value.patchQueries == st.patchQueries
  {
    var seen := st.separatorSeen || line == Separator;
    if seen then
      Ok(st.(separatorSeen := true, failedIds := st.failedIds + OptionSeq(FailedIdOfLine(line))))
    else if st.nextLineHasPatchQuery then
      match PatchResult(shapes, lineNumber, st.patchQueryTargetTable, line)
      case None => Err(lineNumber)
      case Some(pq) => Ok(st.(nextLineHasPatchQuery := false, patchQueries := st.patchQueries + [pq]))
    else
      match shapes.patchTable(line)
      case Some(g) =>
        if |g| == 1 then Ok(st.(nextLineHasPatchQuery := true, patchQueryTargetTable := g[0]))
        else Ok(st)
      case None => Ok(st)
  }

  /** The reader's state after the lines `lines`. */
  function ReadLines(shapes: ReportShapes, lines: seq<string>): Result<ReaderState, nat>
  {
    if lines == [] then Ok(Start)
    else
      match ReadLines(shapes, lines[..|lines| - 1])
      case Err(n) => Err(n)
      case Ok(st) => ReadLine(shapes, st, |lines|, lines[|lines| - 1])
  }

  /** Once an item fails to decode, so does every longer list. */
  lemma {:induction false} DecodeItemsStuck(shapes: ReportShapes, items: seq<string>, j: nat)
    requires j <= |items| && DecodeItems(shapes, items[..j]).None?
    ensures DecodeItems(shapes, items).None?
    decreases |items| - j
  {
    if j < |items| {
      assert items[..j + 1][..j] == items[..j];
      DecodeItemsStuck(shapes, items, j + 1);
    } else {
      assert items[..j] == items;
    }
  }

  /** Reading the line after a patch-query announcement
      (analyzer.go:135-153): the patch query it holds, or `None` where the
      source panics. */
  method ReadPatchResult(shapes: ReportShapes, lineNumber: nat, table: string, line: string)
    returns (pq: Option<PatchQuery>)
    ensures pq == PatchResult(shapes, lineNumber, table, line)
  {
    var resultMatch := shapes.patchResult(line);
    if resultMatch.None? || resultMatch.value == [] {
      return None;
    }
    var items := SplitOn(resultMatch.value[0], "), (");
    var queries := DecodePatchItems(shapes, items);
    if queries.None? {
      return None;
    }
    return Some(PatchQuery(lineNumber, table, queries.value));
  }

  /** The loop over the items of a patch-query result (analyzer.go:143-150);
      `None` when an item has no quoted part, where the source panics. */
  method DecodePatchItems(shapes: ReportShapes, items: seq<string>) returns (queries: Option<seq<string>>)
    ensures queries == DecodeItems(shapes, items)
  {
    var qs := [];
    var i := 0;
    while i < |items|
      invariant 0 <= i <= |items|
      invariant DecodeItems(shapes, items[..i]) == Some(qs)
    {
      assert items[..i + 1][..i] == items[..i];
      var item := RemoveAll(items[i], "\\n");
      var itemMatch := Match(PatchItem, item);
      if itemMatch.None? {
        DecodeItemsStuck(shapes, items, i + 1);
        return None;
      }
      var b64query := itemMatch.value[0];
      qs := qs + [shapes.decodeLenient(b64query)];
      i := i + 1;
    }
    assert items[..i] == items;
    return Some(qs);
  }

  /** After a panic the rest of the report is not read. */
  lemma {:induction false} ReadLinesStuckFrom(shapes: ReportShapes, lines: seq<string>, j: nat, n: nat)
    requires j <= |lines| && ReadLines(shapes, lines[..j]) == Err(n)
    ensures ReadLines(shapes, lines) == Err(n)
    decreases |lines| - j
  {
    if j < |lines| {
      assert lines[..j + 1][..j] == lines[..j];
      ReadLinesStuckFrom(shapes, lines, j + 1, n);
    } else {
      assert lines[..j] == lines;
    }
  }

  /** `parsePytestReport` (analyzer.go:100-170). An empty report path reads
      nothing; a report that cannot be opened gives empty lists and the open
      error; otherwise the lines are read one by one. */
  method ParsePytestReport(shapes: ReportShapes, pytestReportPath: string, file: ReportFile)
    returns (r: ReportOutcome)
    ensures pytestReportPath == "" ==> r == Done([], [], None)
    ensures pytestReportPath != "" && file.OpenFailed? ==> r == Done([], [], Some(file.error))
    ensures pytestReportPath != "" && file.Lines? ==>
      r == match ReadLines(shapes, file.lines)
           case Err(n) => Panicked(n)
           case Ok(st) => Done(st.failedIds, st.patchQueries, None)
  {
    var patchQueries: seq<PatchQuery> := [];
    var failedTestIds: seq<string> := [];
    if pytestReportPath == "" {
      return Done(failedTestIds, patchQueries, None);
    }
    if file.OpenFailed? {
      return Done(failedTestIds, patchQueries, Some(file.error));
    }
    var lines := file.lines;
    var lineNumber := 0;
    var nextLineHasPatchQuery := false;
    var patchQueryTargetTable := "";
    var separatorSeen := false;
    while lineNumber < |lines|
      invariant 0 <= lineNumber <= |lines|
      invariant ReadLines(shapes, lines[..lineNumber])
             == Ok(ReaderState(separatorSeen, nextLineHasPatchQuery, patchQueryTargetTable,
                               failedTestIds, patchQueries))
    {
      var line := lines[lineNumber];
      ghost var st := ReaderState(separatorSeen, nextLineHasPatchQuery, patchQueryTargetTable,
                                  failedTestIds, patchQueries);
      ReadLinesTake(shapes, lines, lineNumber);
      lineNumber := lineNumber + 1;
      if line == Separator {
        separatorSeen := true;
      }

      if separatorSeen {
        var failedTestParts := Match(FailedLine, line);
        if failedTestParts.None? {
          failedTestParts := Match(ErroredLine, line);
        }
        assert failedTestParts == Match(FailedLine, line) || failedTestParts == Match(ErroredLine, line);
        if failedTestParts.Some? {
          var testId := failedTestParts.value[1] + "." + failedTestParts.value[0];
          assert FailedIdOfLine(line) == Some(testId);
          failedTestIds := failedTestIds + [testId];
          assert failedTestIds == st.failedIds + OptionSeq(FailedIdOfLine(line));
        } else {
          assert FailedIdOfLine(line) == None;
          assert failedTestIds == st.failedIds + OptionSeq(FailedIdOfLine(line));
        }
        assert separatorSeen && (st.separatorSeen || line == Separator);
        assert ReadLine(shapes, st, lineNumber, line) == Ok(ReaderState(separatorSeen, nextLineHasPatchQuery, patchQueryTargetTable, failedTestIds, patchQueries));
      } else if nextLineHasPatchQuery {
        var pq := ReadPatchResult(shapes, lineNumber, patchQueryTargetTable, line);
        if pq.None? {
          ReadLinesStuckFrom(shapes, lines, lineNumber, lineNumber);
          return Panicked(lineNumber);
        }
        patchQueries := patchQueries + [pq.value];
        nextLineHasPatchQuery := false;
        assert ReadLine(shapes, st, lineNumber, line) == Ok(ReaderState(separatorSeen, nextLineHasPatchQuery, patchQueryTargetTable, failedTestIds, patchQueries));
      } else {
        var patchQuery := shapes.patchTable(line);
        if patchQuery.Some? && |patchQuery.value| == 1 {
          nextLineHasPatchQuery := true;
          patchQueryTargetTable := patchQuery.value[0];
        }
        assert ReadLine(shapes, st, lineNumber, line) == Ok(ReaderState(separatorSeen, nextLineHasPatchQuery, patchQueryTargetTable, failedTestIds, patchQueries));
      }
    }
    assert lines[..lineNumber] == lines;
    return Done(failedTestIds, patchQueries, None);
  }

  /** Reading one more line of `lines` after the first `i`. */
  lemma ReadLinesTake(shapes: ReportShapes, lines: seq<string>, i: nat)
    requires i < |lines| && ReadLines(shapes, lines[..i]).Ok?
    ensures ReadLines(shapes, lines[..i + 1])
         == ReadLine(shapes, ReadLines(shapes, lines[..i]).value, i + 1, lines[i])
  {
    assert lines[..i + 1][..i] == lines[..i];
  }

  lemma {:induction false} FirstSeparatorSnoc(lines: seq<string>, line: string)
    ensures FirstSeparator(lines + [line]) ==
      if FirstSeparator(lines) < |lines| then FirstSeparator(lines)
      else if line == Separator then |lines| else |lines| + 1
    decreases |lines|
  {
    if lines != [] {
      assert (lines + [line])[1..] == lines[1..] + [line];
      FirstSeparatorSnoc(lines[1..], line);
    }
  }

  lemma FailedIdsOfSnoc(lines: seq<string>, line: string)
    ensures FailedIdsOf(lines + [line]) == FailedIdsOf(lines) + OptionSeq(FailedIdOfLine(line))
  {
    assert (lines + [line])[..|lines|] == lines;
  }

  lemma FailedIdsOfSlice(pre: seq<string>, s: nat, line: string)
    requires s <= |pre|
    ensures FailedIdsOf((pre + [line])[s..]) == FailedIdsOf(pre[s..]) + OptionSeq(FailedIdOfLine(line))
  {
    assert (pre + [line])[s..] == pre[s..] + [line];
    FailedIdsOfSnoc(pre[s..], line);
  }

  /** The separator itself names no failed test. */
  lemma SeparatorNamesNoTest()
    ensures FailedIdOfLine(Separator) == None
  {
    forall j | 0 <= j <= |Separator| ensures !OccursAt(Separator, "FAIL: ", j) && !OccursAt(Separator, "ERROR: ", j) {
      if j + 6 <= |Separator| {
        assert Separator[j..j + 6][0] == Separator[j] == '=';
      }
      if j + 7 <= |Separator| {
        assert Separator[j..j + 7][0] == Separator[j] == '=';
      }
    }
    assert forall k | 0 <= k < |Separator| :: Separator[k] != '\n';
    SingleLine(FailedLine, Separator);
    SingleLine(ErroredLine, Separator);
    AbsentPrefixNoMatch(FailedLine, Separator, 0);
    AbsentPrefixNoMatch(ErroredLine, Separator, 0);
  }

  /** Only the lines from the first separator on contribute failed ids, in
      report order with duplicates kept; the reader can only panic before
      the separator. */
  lemma {:induction false} ReadLinesFailedIds(shapes: ReportShapes, lines: seq<string>)
    ensures ReadLines(shapes, lines).Ok? ==>
      && ReadLines(shapes, lines).value.separatorSeen == (FirstSeparator(lines) < |lines|)
      && ReadLines(shapes, lines).value.failedIds == FailedIdsOf(lines[FirstSeparator(lines)..])
    ensures ReadLines(shapes, lines).Err? ==> 1 <= ReadLines(shapes, lines).error <= FirstSeparator(lines)
    decreases |lines|
  {
    if lines != [] {
      ReadLinesFailedIds(shapes, lines[..|lines| - 1]);
      ReadLinesIdsStep(shapes, lines);
    }
  }

  /** The separator flag and failed ids after `lines` agree with the lines,
      or the reader panicked before the first separator. */
  predicate IdsAgree(lines: seq<string>, r: Result<ReaderState, nat>)
  {
    && (r.Ok? ==>
          && r.value.separatorSeen == (FirstSeparator(lines) < |lines|)
          && r.value.failedIds == FailedIdsOf(lines[FirstSeparator(lines)..]))
    && (r.Err? ==> 1 <= r.error <= FirstSeparator(lines))
  }

  lemma ReadLinesIdsStep(shapes: ReportShapes, lines: seq<string>)
    requires lines != []
    requires IdsAgree(lines[..|lines| - 1], ReadLines(shapes, lines[..|lines| - 1]))
    ensures IdsAgree(lines, ReadLines(shapes, lines))
  {
    var pre := lines[..|lines| - 1];
    var line := lines[|lines| - 1];
    FrontLast(lines);
    FirstSeparatorSnoc(pre, line);
    match ReadLines(shapes, pre)
    case Err(n) =>
      assert ReadLines(shapes, lines) == Err(n);
    case Ok(st) =>
      assert ReadLines(shapes, lines) == ReadLine(shapes, st, |lines|, line);
      ReadLineIds(shapes, st, |lines|, line);
      if ReadLine(shapes, st, |lines|, line).Ok? {
        FailedIdsStep(pre, line, st, ReadLine(shapes, st, |lines|, line).value);
      }
  }

  /** What one line does to the separator flag and the failed ids: from
      the separator on it adds the id the line names; before it, it adds
      nothing, and the reader can only panic at that line. */
  lemma ReadLineIds(shapes: ReportShapes, st: ReaderState, lineNumber: nat, line: string)
    ensures st.separatorSeen || line == Separator ==>
      ReadLine(shapes, st, lineNumber, line) ==
        Ok(st.(separatorSeen := true, failedIds := st.failedIds + OptionSeq(FailedIdOfLine(line))))
    ensures !(st.separatorSeen || line == Separator) ==>
      var r := ReadLine(shapes, st, lineNumber, line);
      && (r.Ok? ==> !r.value.separatorSeen && r.value.failedIds == st.failedIds)
      && (r.Err? ==> r.error == lineNumber)
  {
    if !(st.separatorSeen || line == Separator) {
      PatchLineKeepsIds(shapes, st, lineNumber, line);
    }
  }

  /** A state that agrees with the lines so far, stepped as `ReadLineIds`
      says, agrees with them and the next line. */
  lemma FailedIdsStep(pre: seq<string>, line: string, st: ReaderState, st': ReaderState)
    requires st.separatorSeen == (FirstSeparator(pre) < |pre|)
    requires st.failedIds == FailedIdsOf(pre[FirstSeparator(pre)..])
    requires st.separatorSeen || line == Separator ==>
      st'.separatorSeen && st'.failedIds == st.failedIds + OptionSeq(FailedIdOfLine(line))
    requires !(st.separatorSeen || line == Separator) ==>
      !st'.separatorSeen && st'.failedIds == st.failedIds
    ensures st'.separatorSeen == (FirstSeparator(pre + [line]) < |pre| + 1)
    ensures st'.failedIds == FailedIdsOf((pre + [line])[FirstSeparator(pre + [line])..])
  {
    FirstSeparatorSnoc(pre, line);
    if st.separatorSeen {
      FailedIdsOfSlice(pre, FirstSeparator(pre), line);
    } else if line == Separator {
      FailedIdsOfSlice(pre, FirstSeparator(pre), line);
      SeparatorNamesNoTest();
    } else {
      assert (pre + [line])[|pre| + 1..] == [];
      assert pre[FirstSeparator(pre)..] == [];
    }
  }

  /** Before the separator a line adds no failed id, and the reader can
      only panic at that line. */
  lemma PatchLineKeepsIds(shapes: ReportShapes, st: ReaderState, lineNumber: nat, line: string)
    requires !st.separatorSeen && line != Separator
    ensures var r := ReadLine(shapes, st, lineNumber, line);
      && (r.Ok? ==> !r.value.separatorSeen && r.value.failedIds == st.failedIds)
      && (r.Err? ==> r.error == lineNumber)
  {
    if st.nextLineHasPatchQuery {
      match PatchResult(shapes, lineNumber, st.patchQueryTargetTable, line)
      case None =>
        assert ReadLine(shapes, st, lineNumber, line) == Err(lineNumber);
      case Some(pq) =>
        assert ReadLine(shapes, st, lineNumber, line) == Ok(st.(nextLineHasPatchQuery := false, patchQueries := st.patchQueries + [pq]));
    } else {
      assert ReadLine(shapes, st, lineNumber, line).Ok?;
    }
  }

  /** The patch query `pq` was announced on the line before its own and
      was read from its own line. */
  predicate PatchQueryFrom(shapes: ReportShapes, lines: seq<string>, pq: PatchQuery)
  {
    && 2 <= pq.lineNumber <= |lines|
    && shapes.patchTable(lines[pq.lineNumber - 2]) == Some([pq.tableName])
    && PatchResult(shapes, pq.lineNumber, pq.tableName, lines[pq.lineNumber - 1]) == Some(pq)
  }

  /** Before the separator the reader is waiting for a result line exactly
      when the previous line announced a patch query, and every patch query
      comes from the line after its announcement, in report order. */
  predicate PatchFacts(shapes: ReportShapes, lines: seq<string>, st: ReaderState)
  {
    && (st.nextLineHasPatchQuery && !st.separatorSeen ==>
          |lines| >= 1
          && shapes.patchTable(lines[|lines| - 1]) == Some([st.patchQueryTargetTable]))
    && (forall i | 0 <= i < |st.patchQueries| :: PatchQueryFrom(shapes, lines, st.patchQueries[i]))
    && (forall i, j | 0 <= i < j < |st.patchQueries| ::
          st.patchQueries[i].lineNumber < st.patchQueries[j].lineNumber)
  }

  lemma {:induction false} ReadLinesPatchQueries(shapes: ReportShapes, lines: seq<string>)
    requires ReadLines(shapes, lines).Ok?
    ensures PatchFacts(shapes, lines, ReadLines(shapes, lines).value)
    decreases |lines|
  {
    if lines != [] {
      var n := |lines|;
      var pre := lines[..n - 1];
      var line := lines[n - 1];
      ReadLinesPatchQueries(shapes, pre);
      ReadLinesPatchStep(shapes, lines);
    }
  }

  /** The facts for all lines but the last carry over to all lines. */
  lemma ReadLinesPatchStep(shapes: ReportShapes, lines: seq<string>)
    requires lines != [] && ReadLines(shapes, lines).Ok?
    requires ReadLines(shapes, lines[..|lines| - 1]).Ok?
    requires PatchFacts(shapes, lines[..|lines| - 1], ReadLines(shapes, lines[..|lines| - 1]).value)
    ensures PatchFacts(shapes, lines, ReadLines(shapes, lines).value)
  {
    var n := |lines|;
    var pre := lines[..n - 1];
    var line := lines[n - 1];
    FrontLast(lines);
    var st := ReadLines(shapes, pre).value;
    assert ReadLines(shapes, lines) == ReadLine(shapes, st, n, line);
    ReadLinePatchFacts(shapes, pre, line, st);
  }

  /** One line read without a panic keeps the patch query facts. */
  lemma ReadLinePatchFacts(shapes: ReportShapes, pre: seq<string>, line: string, st: ReaderState)
    requires PatchFacts(shapes, pre, st)
    requires ReadLine(shapes, st, |pre| + 1, line).Ok?
    ensures PatchFacts(shapes, pre + [line], ReadLine(shapes, st, |pre| + 1, line).value)
  {
    var lines := pre + [line];
    var n := |lines|;
    if st.separatorSeen || line == Separator {
      PatchFactsKept(shapes, pre, line, st, st.(separatorSeen := true, failedIds := st.failedIds + OptionSeq(FailedIdOfLine(line))));
    } else if st.nextLineHasPatchQuery {
      var pq := PatchResult(shapes, n, st.patchQueryTargetTable, line).value;
      PatchResultFields(shapes, n, st.patchQueryTargetTable, line);
      assert PatchQueryFrom(shapes, lines, pq) by {
        assert lines[n - 2] == pre[n - 2];
      }
      PatchFactsResult(shapes, pre, line, st, pq);
    } else {
      match shapes.patchTable(line)
      case Some(g) =>
        if |g| == 1 {
          assert g == [g[0]];
          PatchFactsKept(shapes, pre, line, st, st.(nextLineHasPatchQuery := true, patchQueryTargetTable := g[0]));
        } else {
          PatchFactsKept(shapes, pre, line, st, st);
        }
      case None =>
        PatchFactsKept(shapes, pre, line, st, st);
    }
  }

  /** A line that adds no patch query keeps the facts about the earlier
      ones, provided the waiting flag is accounted for. */
  lemma PatchFactsKept(shapes: ReportShapes, pre: seq<string>, line: string, st: ReaderState, st': ReaderState)
    requires PatchFacts(shapes, pre, st)
    requires st'.patchQueries == st.patchQueries
    requires st'.nextLineHasPatchQuery && !st'.separatorSeen ==>
      shapes.patchTable(line) == Some([st'.patchQueryTargetTable])
    ensures PatchFacts(shapes, pre + [line], st')
  {
    var lines := pre + [line];
    forall i | 0 <= i < |st.patchQueries|
      ensures PatchQueryFrom(shapes, lines, st.patchQueries[i])
    {
      var pq := st.patchQueries[i];
      assert PatchQueryFrom(shapes, pre, pq);
      assert lines[pq.lineNumber - 2] == pre[pq.lineNumber - 2];
      assert lines[pq.lineNumber - 1] == pre[pq.lineNumber - 1];
    }
  }

  /** The result line after an announcement adds its patch query last. */
  lemma PatchFactsResult(shapes: ReportShapes, pre: seq<string>, line: string, st: ReaderState, pq: PatchQuery)
    requires PatchFacts(shapes, pre, st)
    requires PatchQueryFrom(shapes, pre + [line], pq) && pq.lineNumber == |pre| + 1
    ensures PatchFacts(shapes, pre + [line], st.(nextLineHasPatchQuery := false, patchQueries := st.patchQueries + [pq]))
  {
    var lines := pre + [line];
    PatchFactsKept(shapes, pre, line, st, st.(nextLineHasPatchQuery := false));
    var qs := st.patchQueries + [pq];
    forall i | 0 <= i < |qs|
      ensures PatchQueryFrom(shapes, lines, qs[i])
    {
      if i < |st.patchQueries| {
        assert qs[i] == st.patchQueries[i];
      }
    }
    forall i, j | 0 <= i < j < |qs|
      ensures qs[i].lineNumber < qs[j].lineNumber
    {
      assert qs[i] == st.patchQueries[i];
      if j < |st.patchQueries| {
        assert qs[j] == st.patchQueries[j];
      } else {
        assert PatchQueryFrom(shapes, pre, st.patchQueries[i]);
      }
    }
  }

  /** Conversely, before the separator, a line that announces one table
      while the reader waits for no result line gets its result line picked
      up: the next line's patch query is appended, or, when that line does
      not match, the source panics there. */
  lemma PatchLinePickedUp(shapes: ReportShapes, pre: seq<string>, announce: string, result: string, table: string)
    requires ReadLines(shapes, pre).Ok?
    requires !ReadLines(shapes, pre).value.separatorSeen && !ReadLines(shapes, pre).value.nextLineHasPatchQuery
    requires announce != Separator && result != Separator
    requires shapes.patchTable(announce) == Some([table])
    ensures PatchResult(shapes, |pre| + 2, table, result).None? ==>
      ReadLines(shapes, pre + [announce, result]) == Err(|pre| + 2)
    ensures PatchResult(shapes, |pre| + 2, table, result).Some? ==>
      && ReadLines(shapes, pre + [announce, result]).Ok?
      && ReadLines(shapes, pre + [announce, result]).value.patchQueries
         == ReadLines(shapes, pre).value.patchQueries + [PatchResult(shapes, |pre| + 2, table, result).value]
  {
    var lines := pre + [announce, result];
    assert lines[..|pre| + 1] == pre + [announce];
    assert (pre + [announce])[..|pre|] == pre;
    var st := ReadLines(shapes, pre).value;
    assert ReadLines(shapes, pre + [announce])
        == Ok(st.(nextLineHasPatchQuery := true, patchQueryTargetTable := table));
  }

  lemma PatchResultFields(shapes: ReportShapes, lineNumber: nat, table: string, line: string)
    requires PatchResult(shapes, lineNumber, table, line).Some?
    ensures PatchResult(shapes, lineNumber, table, line).value.lineNumber == lineNumber
    ensures PatchResult(shapes, lineNumber, table, line).value.tableName == table
  {
  }

  /** A `FAIL: name (suite)` line names the test `suite.name`. */
  lemma FailLineNamesTest(name: string, suite: string)
    requires '\n' !in name && '\n' !in suite && !ContainsStr(suite, " (")
    ensures FailedIdOfLine("FAIL: " + name + " (" + suite + ")") == Some(suite + "." + name)
  {
    FailedLineMatches(name, suite);
  }

  /** An `ERROR: name (suite)` line names the test `suite.name`, the `FAIL:`
      shape being tried first. */
  lemma ErrorLineNamesTest(name: string, suite: string)
    requires '\n' !in name && '\n' !in suite && !ContainsStr(suite, " (")
    requires !ContainsStr("ERROR: " + name + " (" + suite + ")", "FAIL: ")
    ensures FailedIdOfLine("ERROR: " + name + " (" + suite + ")") == Some(suite + "." + name)
  {
    var line := "ERROR: " + name + " (" + suite + ")";
    ErroredLineMatches(name, suite);
    NoNewlineConcat("ERROR: ", name, suite);
    SingleLine(FailedLine, line);
    AbsentPrefixNoMatch(FailedLine, line, 0);
  }
}
