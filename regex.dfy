/** The regular expressions of the analyzer and the conversion between the two
    spellings of a test identifier.

    Every pattern the core matches against with a fixed literal shape is
    modelled exactly, with the semantics of Go's `regexp` package: the search
    is unanchored, the leftmost starting position wins, `.*` is greedy, and `.`
    never matches a newline (so a match never spans two lines). The two
    log-record patterns, whose capture depends on several interacting greedy
    groups, are left abstract in the scan (see the Scan module). */
module Regex {
  import opened Common

  /** The shapes of pattern used by the core:
      - `Capture(p, c)`   is `p(.*)c`                           (the sentinels)
      - `Pair(p, o, c, true)`  is `p(.*)o(.*)c`                  (`FAIL: (.*) \((.*)\)`, ...)
      - `Pair(p, o, c, false)` is `p.*o(.*)c` (first group not captured)
      - `LastDot`         is `(.*)\.(.*)`                        (testIdNameRegex)
      The literal parts never contain a newline. */
  datatype Pattern =
    | Capture(prefix: string, close: char)
    | Pair(prefix: string, open: string, close: char, captureFirst: bool)
    | LastDot

  predicate WellFormed(p: Pattern)
  {
    match p
    case Capture(prefix, close) => '\n' !in prefix && close != '\n'
    case Pair(prefix, open, close, _) => '\n' !in prefix && '\n' !in open && |open| > 0 && close != '\n'
    case LastDot => true
  }

  function GroupCount(p: Pattern): nat
  {
    match p
    case Capture(_, _) => 1
    case Pair(_, _, _, captureFirst) => if captureFirst then 2 else 1
    case LastDot => 2
  }

  // regex.go:12 and regex.go:14
  const StartingSentinel := Capture("select 'dolt: setUp, test id = ", '\'')
  const FinishedSentinel := Capture("select 'dolt: _post_teardown, test id = ", '\'')
  // regex.go:16-19
  const FailedLine := Pair("FAIL: ", " (", ')', true)
  const ErroredLine := Pair("ERROR: ", " (", ')', true)
  const PyTestNameShape := Pair("", " (", ')', true)
  const TestIdShape := LastDot

  /** Largest `k` in `[lo, hi]` at which `open` occurs in `line`, or -1. */
  function LastOccurrence(line: string, open: string, lo: int, hi: int): (k: int)
    ensures k == -1 || (lo <= k <= hi && OccursAt(line, open, k))
    ensures forall j | lo <= j <= hi && k < j :: !OccursAt(line, open, j)
    decreases if hi >= lo then hi - lo + 1 else 0
  {
    if hi < lo then -1
    else if OccursAt(line, open, hi) then hi
    else LastOccurrence(line, open, lo, hi - 1)
  }

  /** A match of `p` starts at position `i` of the newline-free `line`. */
  predicate MatchesAt(p: Pattern, line: string, i: nat)
  {
    match p
    case Capture(prefix, close) =>
      OccursAt(line, prefix, i) && LastIndexOf(line, close) >= i + |prefix|
    case Pair(prefix, open, close, _) =>
      OccursAt(line, prefix, i)
      && LastOccurrence(line, open, i + |prefix|, LastIndexOf(line, close) - |open|) >= 0
    case LastDot =>
      i <= |line| && LastIndexOf(line, '.') >= i
  }

  /** The capture groups of the preferred match starting at `i`: every `.*`
      takes as much of the line as still lets the rest of the pattern match. */
  function GroupsAt(p: Pattern, line: string, i: nat): (g: seq<string>)
    requires MatchesAt(p, line, i)
    ensures |g| == GroupCount(p)
  {
    match p
    case Capture(prefix, close) =>
      [line[i + |prefix|..LastIndexOf(line, close)]]
    case Pair(prefix, open, close, captureFirst) =>
      var c := LastIndexOf(line, close);
      var k := LastOccurrence(line, open, i + |prefix|, c - |open|);
      if captureFirst then [line[i + |prefix|..k], line[k + |open|..c]]
      else [line[k + |open|..c]]
    case LastDot =>
      var d := LastIndexOf(line, '.');
      [line[i..d], line[d + 1..]]
  }

  /** Leftmost match in `line` starting at or after `i`. */
  function LeftmostFrom(p: Pattern, line: string, i: nat): (r: Option<seq<string>>)
    ensures r.Some? ==> |r.value| == GroupCount(p)
    decreases |line| - i
  {
    if i > |line| then None
    else if MatchesAt(p, line, i) then Some(GroupsAt(p, line, i))
    else LeftmostFrom(p, line, i + 1)
  }

  /** The first match of `p` in a string that may span several lines: since no
      part of a pattern matches a newline, it lies in the first line that has
      a match at all. This is what `RegexSplit(text, p)` returns. */
  function Match(p: Pattern, text: string): (r: Option<seq<string>>)
    ensures r.Some? ==> |r.value| == GroupCount(p)
    decreases |text|
  {
    var nl := IndexOf(text, '\n');
    if nl < 0 then LeftmostFrom(p, text, 0)
    else match LeftmostFrom(p, text[..nl], 0)
      case Some(g) => Some(g)
      case None => Match(p, text[nl + 1..])
  }

  /** `RegexSplit` (regex.go:22-33) given what the regexp engine's
      `FindAllSubmatch` returned: every match as its whole text followed by its
      groups. No match gives nil; otherwise the groups of the first match, in
      order, without the whole-match text. For the fixed patterns of this
      module, `Match(p, text)` is this `matches[0][1..]`: the groups of the
      first (leftmost) match. */
  method RegexSplit(matches: seq<seq<string>>) returns (r: Option<seq<string>>)
    requires matches == [] || |matches[0]| >= 1
    ensures r.None? <==> matches == []
    ensures r.Some? ==> |r.value| == |matches[0]| - 1
    ensures r.Some? ==> forall j | 0 <= j < |r.value| :: r.value[j] == matches[0][j + 1]
  {
    if matches == [] {
      return None;
    }
    var first := matches[0];
    var result := seq(|first| - 1, _ => "");
    var i := 1;
    while i < |first|
      invariant 1 <= i <= |first|
      invariant |result| == |first| - 1
      invariant forall j | 0 <= j < i - 1 :: result[j] == first[j + 1]
    {
      result := result[i - 1 := first[i]];
      i := i + 1;
    }
    r := Some(result);
  }

  /** On a single line the first match is the leftmost one in that line. */
  lemma SingleLine(p: Pattern, text: string)
    requires '\n' !in text
    ensures Match(p, text) == LeftmostFrom(p, text, 0)
  {
    assert IndexOf(text, '\n') < 0;
  }

  /** Test-id conversion. A display name `name (suite)` gives the dotted id
      `suite.name` (regex.go:41-45). The source indexes the result of the
      match without checking it, so a string that does not have the shape
      makes it panic: that is this function's precondition. */
  function TestIdFromPyTestName(pyTestName: string): (id: string)
    requires Match(PyTestNameShape, pyTestName).Some?
    ensures '\n' !in id && '.' in id
    ensures Match(TestIdShape, id).Some?
  {
    var parts := Match(PyTestNameShape, pyTestName).value;
    assert '\n' !in parts[1] + "." + parts[0] && Match(TestIdShape, parts[1] + "." + parts[0]).Some? by {
      CaptureHasNoNewline(PyTestNameShape, pyTestName);
      assert parts[0] in parts && parts[1] in parts;
      DottedOneLine(parts[1], parts[0]);
    }
    parts[1] + "." + parts[0]
  }

  /** `a.b` of two single-line strings is a single line with a dot, so it
      splits at its last dot. */
  lemma DottedOneLine(a: string, b: string)
    requires '\n' !in a && '\n' !in b
    ensures '\n' !in a + "." + b && '.' in a + "." + b
    ensures Match(TestIdShape, a + "." + b).Some?
  {
    var id := a + "." + b;
    assert id[|a|] == '.';
    forall k | 0 <= k < |id| ensures id[k] != '\n' {
      if k < |a| { assert id[k] == a[k]; }
      else if k > |a| { assert id[k] == b[k - |a| - 1]; }
    }
    SplitAtLastDot(id);
  }

  /** A dotted id `a.b.C.d` gives the display name `d (a.b.C)`, splitting at
      the last dot (regex.go:47-51); an id without a dot makes the source
      panic, which is this function's precondition. */
  function PyTestNameFromTestId(testId: string): (name: string)
    requires Match(TestIdShape, testId).Some?
    ensures '\n' !in testId ==>
      var d := LastIndexOf(testId, '.');
      0 <= d && name == testId[d + 1..] + " (" + testId[..d] + ")"
  {
    var parts := Match(TestIdShape, testId).value;
    assert '\n' !in testId ==> '.' in testId && parts == [testId[..LastIndexOf(testId, '.')], testId[LastIndexOf(testId, '.') + 1..]] by {
      if '\n' !in testId {
        SplitAtLastDot(testId);
      }
    }
    parts[1] + " (" + parts[0] + ")"
  }

  /** A string without a newline splits at its last dot. */
  lemma {:induction false} SplitAtLastDot(id: string)
    requires '\n' !in id
    ensures Match(TestIdShape, id).Some? <==> '.' in id
    ensures '.' in id ==>
      var d := LastIndexOf(id, '.');
      Match(TestIdShape, id) == Some([id[..d], id[d + 1..]])
  {
    SingleLine(TestIdShape, id);
    if '.' in id {
      assert MatchesAt(TestIdShape, id, 0);
    } else {
      assert LastIndexOf(id, '.') == -1;
      NoDotNoMatch(id, 0);
    }
  }

  lemma {:induction false} NoDotNoMatch(id: string, i: nat)
    requires LastIndexOf(id, '.') == -1
    ensures LeftmostFrom(TestIdShape, id, i) == None
    decreases |id| - i
  {
    if i <= |id| {
      NoDotNoMatch(id, i + 1);
    }
  }

  /** In `head + " (" + tail + ")"` with no ` (` inside `tail`, the last ` (`
      followed by a `)` is the one after `head`. */
  lemma {:induction false} PairSplitsAfterHead(prefix: string, head: string, tail: string)
    requires !ContainsStr(tail, " (")
    ensures
      var line := prefix + head + " (" + tail + ")";
      LastIndexOf(line, ')') == |line| - 1
      && LastOccurrence(line, " (", |prefix|, |line| - 1 - 2) == |prefix| + |head|
  {
    var line := prefix + head + " (" + tail + ")";
    var k := |prefix| + |head|;
    assert line[k..k + 2] == " (";
    forall j | k < j <= |line| - 3 ensures !OccursAt(line, " (", j) {
      if j == k + 1 {
        assert line[k + 1] == '(';
      } else {
        assert line[j..j + 2] == tail[j - k - 2..j - k];
        assert !OccursAt(tail, " (", j - k - 2);
      }
    }
    TopOccurrence(line, " (", |prefix|, |line| - 3, k);
  }

  /** If `open` occurs at `k` and nowhere in `(k, hi]`, the search from the top
      of `[lo, hi]` stops at `k`. */
  lemma {:induction false} TopOccurrence(line: string, open: string, lo: int, hi: int, k: int)
    requires lo <= k <= hi && OccursAt(line, open, k)
    requires forall j | k < j <= hi :: !OccursAt(line, open, j)
    ensures LastOccurrence(line, open, lo, hi) == k
    decreases hi - k
  {
    if hi > k {
      TopOccurrence(line, open, lo, hi - 1, k);
    }
  }

  /** Reading `prefix + head + " (" + tail + ")"` with a `Pair` pattern whose
      literal prefix is `prefix` yields `head` and `tail`. */
  lemma {:induction false} PairShapeMatches(prefix: string, head: string, tail: string)
    requires '\n' !in prefix && '\n' !in head && '\n' !in tail
    requires !ContainsStr(tail, " (")
    ensures Match(Pair(prefix, " (", ')', true), prefix + head + " (" + tail + ")")
            == Some([head, tail])
  {
    var line := prefix + head + " (" + tail + ")";
    var p := Pair(prefix, " (", ')', true);
    NoNewlineConcat(prefix, head, tail);
    SingleLine(p, line);
    PairSplitsAfterHead(prefix, head, tail);
    var k := |prefix| + |head|;
    assert OccursAt(line, prefix, 0) by {
      assert line[..|prefix|] == prefix;
    }
    assert MatchesAt(p, line, 0);
    assert GroupsAt(p, line, 0) == [line[|prefix|..k], line[k + 2..|line| - 1]];
    PairPieces(prefix, head, tail);
  }

  /** The pieces `head` and `tail` sit where the pattern's groups take them. */
  lemma PairPieces(prefix: string, head: string, tail: string)
    ensures var line := prefix + head + " (" + tail + ")";
      var k := |prefix| + |head|;
      line[|prefix|..k] == head && line[k + 2..|line| - 1] == tail
  {
    var line := prefix + head + " (" + tail + ")";
    var k := |prefix| + |head|;
    var rest := " (" + tail + ")";
    assert line == (prefix + head) + rest;
    assert line[..k] == prefix + head;
    assert line[|prefix|..k] == (prefix + head)[|prefix|..];
    assert line[k..] == rest;
    assert rest[2..|rest| - 1] == tail;
  }

  lemma NoNewlineConcat(prefix: string, head: string, tail: string)
    requires '\n' !in prefix && '\n' !in head && '\n' !in tail
    ensures '\n' !in prefix + head + " (" + tail + ")"
  {
  }

  /** A report line `FAIL: name (suite)` yields `[name, suite]`. */
  lemma FailedLineMatches(name: string, suite: string)
    requires '\n' !in name && '\n' !in suite && !ContainsStr(suite, " (")
    ensures Match(FailedLine, "FAIL: " + name + " (" + suite + ")") == Some([name, suite])
  {
    PairShapeMatches("FAIL: ", name, suite);
  }

  /** A report line `ERROR: name (suite)` yields `[name, suite]`. */
  lemma ErroredLineMatches(name: string, suite: string)
    requires '\n' !in name && '\n' !in suite && !ContainsStr(suite, " (")
    ensures Match(ErroredLine, "ERROR: " + name + " (" + suite + ")") == Some([name, suite])
  {
    PairShapeMatches("ERROR: ", name, suite);
  }

  /** A line that does not contain the literal prefix of a pattern never
      matches it. */
  lemma {:induction false} AbsentPrefixNoMatch(p: Pattern, line: string, i: nat)
    requires p.Capture? || p.Pair?
    requires !ContainsStr(line, p.prefix)
    ensures LeftmostFrom(p, line, i) == None
    decreases |line| - i
  {
    if i <= |line| {
      assert !OccursAt(line, p.prefix, i);
      AbsentPrefixNoMatch(p, line, i + 1);
    }
  }

  /** The sentinel statement `<prefix><id>'` captures exactly `<id>`, even when
      the id itself contains quotes (the group is greedy). */
  lemma SentinelCaptures(prefix: string, id: string)
    requires '\n' !in prefix && '\n' !in id
    ensures Match(Capture(prefix, '\''), prefix + id + "'") == Some([id])
  {
    var s := prefix + id + "'";
    var p := Capture(prefix, '\'');
    assert '\n' !in s;
    SingleLine(p, s);
    assert s[..|prefix|] == prefix;
    assert LastIndexOf(s, '\'') == |s| - 1;
    assert MatchesAt(p, s, 0);
    assert s[|prefix|..|s| - 1] == id;
  }

  /** regex.go:12: `select 'dolt: setUp, test id = <id>'` captures `<id>`. */
  lemma StartingSentinelCaptures(id: string)
    requires '\n' !in id
    ensures Match(StartingSentinel, "select 'dolt: setUp, test id = " + id + "'") == Some([id])
  {
    SentinelCaptures("select 'dolt: setUp, test id = ", id);
  }

  /** regex.go:14: `select 'dolt: _post_teardown, test id = <id>'` captures `<id>`. */
  lemma FinishedSentinelCaptures(id: string)
    requires '\n' !in id
    ensures Match(FinishedSentinel, "select 'dolt: _post_teardown, test id = " + id + "'") == Some([id])
  {
    SentinelCaptures("select 'dolt: _post_teardown, test id = ", id);
  }

  /** A captured group never contains a newline: every id the sentinels
      capture is a single line. */
  lemma {:induction false} CaptureHasNoNewline(p: Pattern, text: string)
    requires Match(p, text).Some?
    ensures forall g | g in Match(p, text).value :: '\n' !in g
    decreases |text|
  {
    var nl := IndexOf(text, '\n');
    if nl < 0 {
      LeftmostLineGroups(p, text, 0);
    } else {
      assert '\n' !in text[..nl];
      if LeftmostFrom(p, text[..nl], 0).Some? {
        LeftmostLineGroups(p, text[..nl], 0);
      } else {
        CaptureHasNoNewline(p, text[nl + 1..]);
      }
    }
  }

  lemma {:induction false} LeftmostLineGroups(p: Pattern, line: string, i: nat)
    requires '\n' !in line
    requires LeftmostFrom(p, line, i).Some?
    ensures forall g | g in LeftmostFrom(p, line, i).value :: '\n' !in g
    decreases |line| - i
  {
    if !MatchesAt(p, line, i) {
      LeftmostLineGroups(p, line, i + 1);
    } else {
      match p {
        case Capture(prefix, close) =>
          SliceOfLine(line, i + |prefix|, LastIndexOf(line, close));
        case Pair(prefix, open, close, _) =>
          var c := LastIndexOf(line, close);
          var k := LastOccurrence(line, open, i + |prefix|, c - |open|);
          SliceOfLine(line, i + |prefix|, k);
          SliceOfLine(line, k + |open|, c);
        case LastDot =>
          var d := LastIndexOf(line, '.');
          SliceOfLine(line, i, d);
          SliceOfLine(line, d + 1, |line|);
      }
    }
  }

  lemma SliceOfLine(line: string, a: int, b: int)
    requires '\n' !in line && 0 <= a <= b <= |line|
    ensures '\n' !in line[a..b]
  {
    forall j | 0 <= j < b - a ensures line[a..b][j] != '\n' {
      assert line[a..b][j] == line[a + j];
    }
  }

  /** `k` is the last position holding `c`. */
  lemma LastIndexIs(s: string, c: char, k: int)
    requires 0 <= k < |s| && s[k] == c
    requires forall j | k < j < |s| :: s[j] != c
    ensures LastIndexOf(s, c) == k
  {
  }

  /** Round trip from the dotted form: `suite.name` → `name (suite)` →
      `suite.name`, for an id with a dot, on one line, whose part before the
      last dot has no ` (`. */
  lemma RoundTripFromTestId(id: string)
    requires '\n' !in id && '.' in id
    requires !ContainsStr(id[..LastIndexOf(id, '.')], " (")
    ensures Match(TestIdShape, id).Some?
    ensures Match(PyTestNameShape, PyTestNameFromTestId(id)).Some?
    ensures TestIdFromPyTestName(PyTestNameFromTestId(id)) == id
  {
    SplitAtLastDot(id);
    var d := LastIndexOf(id, '.');
    var suite, name := id[..d], id[d + 1..];
    SliceOfLine(id, 0, d);
    SliceOfLine(id, d + 1, |id|);
    var display := "" + name + " (" + suite + ")";
    assert PyTestNameFromTestId(id) == display;
    PairShapeMatches("", name, suite);
    assert Match(PyTestNameShape, display) == Some([name, suite]);
    assert TestIdFromPyTestName(display) == suite + "." + name;
    DotSplit(id, d);
  }

  lemma DotSplit(id: string, d: int)
    requires 0 <= d < |id| && id[d] == '.'
    ensures id == id[..d] + "." + id[d + 1..]
  {
    assert id[d..d + 1] == ".";
    SplitAround(id, ".", d);
  }

  /** Round trip from the display form: `name (suite)` → `suite.name` →
      `name (suite)`, for a dot-free name and a suite without ` (`. */
  lemma RoundTripFromPyTestName(name: string, suite: string)
    requires '\n' !in name && '\n' !in suite
    requires '.' !in name && !ContainsStr(suite, " (")
    ensures Match(PyTestNameShape, name + " (" + suite + ")").Some?
    ensures Match(TestIdShape, TestIdFromPyTestName(name + " (" + suite + ")")).Some?
    ensures PyTestNameFromTestId(TestIdFromPyTestName(name + " (" + suite + ")"))
            == name + " (" + suite + ")"
  {
    DisplayToId(name, suite);
    IdToDisplay(suite, name);
  }

  lemma DisplayToId(name: string, suite: string)
    requires '\n' !in name && '\n' !in suite
    requires '.' !in name && !ContainsStr(suite, " (")
    ensures Match(PyTestNameShape, name + " (" + suite + ")").Some?
    ensures TestIdFromPyTestName(name + " (" + suite + ")") == suite + "." + name
  {
    PairShapeMatches("", name, suite);
    assert "" + name + " (" + suite + ")" == name + " (" + suite + ")";
  }

  lemma IdToDisplay(suite: string, name: string)
    requires '\n' !in name && '\n' !in suite && '.' !in name
    ensures Match(TestIdShape, suite + "." + name).Some?
    ensures PyTestNameFromTestId(suite + "." + name) == name + " (" + suite + ")"
  {
    DottedIdSplits(suite, name);
  }

  /** `suite.name` with a dot-free name splits back into `suite` and `name`. */
  lemma DottedIdSplits(suite: string, name: string)
    requires '\n' !in name && '\n' !in suite && '.' !in name
    ensures Match(TestIdShape, suite + "." + name) == Some([suite, name])
  {
    var id := suite + "." + name;
    assert '\n' !in id && '.' in id by {
      assert id[|suite|] == '.';
    }
    forall j | |suite| < j < |id| ensures id[j] != '.' {
      assert id[j] == name[j - |suite| - 1];
    }
    LastIndexIs(id, '.', |suite|);
    SplitAtLastDot(id);
    assert id[..|suite|] == suite && id[|suite| + 1..] == name;
  }
}
