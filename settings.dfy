/** Run settings (settings.go): where the inputs are, and how the names of the
    output files are derived from the name of the log file. Paths follow Go's
    `path/filepath` on a Unix system (separator '/'); the lexical clean-up
    `filepath.Clean` is a parameter. */
module Settings {
  import opened Common

  /** `filepath.Clean`: any function from paths to paths. */
  type Cleaner = string -> string

  datatype Settings = Settings(
    doltLogFilePath: string,
    pytestReportPath: string,
    outputDirPath: string,
    outputFileBaseName: string,
    hideNonTestQueries: bool,
    logQueryText: bool,
    logFileExtension: string)

  /** `path` with all trailing '/' removed. */
  function TrimTrailingSlashes(path: string): (r: string)
    ensures r <= path
    ensures r == [] || r[|r| - 1] != '/'
    ensures forall j | |r| <= j < |path| :: path[j] == '/'
  {
    if path != [] && path[|path| - 1] == '/' then TrimTrailingSlashes(path[..|path| - 1])
    else path
  }

  /** `filepath.Base`: the last element of the path, "." for the empty path and
      "/" for a path of slashes only. */
  function Base(path: string): (r: string)
    ensures r != []
    ensures r != "/" ==> '/' !in r
  {
    if path == [] then "."
    else
      var t := TrimTrailingSlashes(path);
      if t == [] then "/"
      else
        var i := LastIndexOf(t, '/');
        assert i < |t| - 1;
        var r := t[i + 1..];
        assert forall k | 0 <= k < |r| :: r[k] != '/' by {
          forall k | 0 <= k < |r| ensures r[k] != '/' {
            assert r[k] == t[i + 1 + k];
          }
        }
        r
  }

  /** `filepath.Ext`: the suffix starting at the last '.' of the final element,
      or "" when that element has no '.'. */
  function Ext(path: string): (r: string)
  {
    if path == [] then ""
    else
      var c := path[|path| - 1];
      if c == '/' then ""
      else if c == '.' then "."
      else
        var e := Ext(path[..|path| - 1]);
        if e == "" then "" else e + [c]
  }

  /** An extension is empty, or a '.' followed by characters that are neither
      '.' nor '/'. */
  predicate ExtShape(e: string)
  {
    e == "" || (e[0] == '.' && forall j | 1 <= j < |e| :: e[j] != '.' && e[j] != '/')
  }

  /** What `Ext` returns: a suffix of the path of extension shape, and it is
      empty exactly when no '.' follows the last '/'. */
  lemma {:induction false} ExtSpec(path: string)
    ensures var e := Ext(path);
      |e| <= |path| && path[|path| - |e|..] == e && ExtShape(e)
      && (e == "" <==> forall j | 0 <= j < |path| && path[j] == '.' :: exists k | j < k < |path| :: path[k] == '/')
    decreases |path|
  {
    if path != [] {
      var c := path[|path| - 1];
      var p := path[..|path| - 1];
      if c == '/' {
        forall j | 0 <= j < |path| && path[j] == '.'
          ensures exists k | j < k < |path| :: path[k] == '/'
        {
          assert path[|path| - 1] == '/';
        }
      } else if c != '.' {
        ExtSpec(p);
        var e := Ext(p);
        assert forall j | 0 <= j < |p| :: p[j] == path[j];
        if e != "" {
          assert path[|path| - |e + [c]|..] == p[|p| - |e|..] + [c];
        }
      }
    }
  }

  /** Appending an extension to any name makes that the name's extension. */
  lemma {:induction false} ExtOfSuffix(name: string, e: string)
    requires e != "" && ExtShape(e)
    ensures Ext(name + e) == e
    decreases |e|
  {
    var s := name + e;
    if |e| == 1 {
      assert s[|s| - 1] == '.';
    } else {
      var e' := e[..|e| - 1];
      assert s[..|s| - 1] == name + e';
      ExtOfSuffix(name, e');
      assert e' + [e[|e| - 1]] == e;
    }
  }

  /** `filepath.Dir` on a Unix path: everything up to the last '/', cleaned. */
  function Dir(clean: Cleaner, path: string): string
  {
    clean(path[..LastIndexOf(path, '/') + 1])
  }

  /** `filepath.Join` of two elements on Unix: the empty elements before the
      first non-empty one are dropped, the rest are joined with '/' and
      cleaned; all-empty gives "". */
  function Join(clean: Cleaner, a: string, b: string): (r: string)
    ensures a == "" && b == "" ==> r == ""
  {
    if a != "" then clean(a + "/" + b)
    else if b != "" then clean(b)
    else ""
  }

  /** `NewSettings` (settings.go:28-44): the output directory is the log's
      directory, and the log's file name is split into a base name and an
      extension. */
  function NewSettings(clean: Cleaner, logPath: string, pytestReportPath: string): (s: Settings)
    ensures s.doltLogFilePath == logPath && s.pytestReportPath == pytestReportPath
    ensures s.outputDirPath == Dir(clean, logPath)
    ensures s.outputFileBaseName + s.logFileExtension == Base(logPath)
    ensures s.logFileExtension == Ext(Base(logPath)) && ExtShape(s.logFileExtension)
    ensures !s.hideNonTestQueries && s.logQueryText
  {
    var name := Base(logPath);
    var ext := Ext(name);
    ExtSpec(name);
    var k := |name| - |ext|;
    assert name[..k] + ext == name by {
      assert name == name[..k] + name[k..];
    }
    Settings(logPath, pytestReportPath, Dir(clean, logPath), name[..k],
             false, true, ext)
  }

  /** `GetOutputFilePath` (settings.go:71-73): an output file lives next to
      the log and is named base + suffix + extension. */
  function GetOutputFilePath(clean: Cleaner, s: Settings, suffix: string): (r: string)
    // the file name keeps the log file's extension, whatever the suffix
    ensures var name := s.outputFileBaseName + suffix + s.logFileExtension;
      && r == Join(clean, s.outputDirPath, name)
      && (s.logFileExtension != "" && ExtShape(s.logFileExtension) ==> Ext(name) == s.logFileExtension)
  {
    var name := s.outputFileBaseName + suffix + s.logFileExtension;
    assert s.logFileExtension != "" && ExtShape(s.logFileExtension) ==> Ext(name) == s.logFileExtension by {
      if s.logFileExtension != "" && ExtShape(s.logFileExtension) {
        ExtOfSuffix(s.outputFileBaseName + suffix, s.logFileExtension);
      }
    }
    Join(clean, s.outputDirPath, name)
  }

  /** Every output file keeps the log file's extension, whatever the suffix,
      and the empty suffix gives the join of the log's directory and file name. */
  lemma OutputFileNames(clean: Cleaner, logPath: string, pytestReportPath: string, suffix: string)
    ensures var s := NewSettings(clean, logPath, pytestReportPath);
      var name := s.outputFileBaseName + suffix + s.logFileExtension;
      && (s.logFileExtension != "" ==> Ext(name) == s.logFileExtension)
      && GetOutputFilePath(clean, s, suffix) == Join(clean, s.outputDirPath, name)
      && GetOutputFilePath(clean, s, "") == Join(clean, Dir(clean, logPath), Base(logPath))
  {
    var s := NewSettings(clean, logPath, pytestReportPath);
    if s.logFileExtension != "" {
      ExtOfSuffix(s.outputFileBaseName + suffix, s.logFileExtension);
    }
    assert s.outputFileBaseName + "" + s.logFileExtension == Base(logPath);
  }
}
