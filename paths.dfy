/**
 * Path handling of the logger (experiments/log.py:25-62): `parse_path`
 * drops the first and last character of its argument (the quotes around a
 * MeTTa string), joins the rest onto the repository root and accepts the
 * result only if it is an existing, readable directory; the output files
 * live in `<dir>/output`.
 *
 * Paths are strings and `/` is POSIX `os.path.join`, which the `path`
 * package's `Path` uses. The filesystem is the set of readable
 * directories passed in.
 */
module Paths {
  import opened Wrappers
  import opened Text

  type Path = string

  /** `a / b`: an absolute `b` replaces `a`; otherwise one `/` separates them. */
  function Join(a: Path, b: string): Path {
    if |b| > 0 && b[0] == '/' then b
    else if a == [] || a[|a| - 1] == '/' then a + b
    else a + "/" + b
  }

  /** The argument of `parse_path`: a `str`, or any other Python object. */
  datatype PathArg = StrArg(s: string) | NotStr

  /** The two errors of `parse_path`. */
  datatype PathError =
    | NotAString    // TypeError "parse_path accepts only str instance" (log.py:33)
    | Unresolvable  // ValueError "... can not be resolved" (log.py:39)

  /**
   * `parse_path(file_path)` with the repository root `root` and the set of
   * existing readable directories `readable`.
   */
  function ParsePath(root: Path, arg: PathArg, readable: set<Path>): Result<Path, PathError> {
    match arg
    case NotStr => Err(NotAString)
    case StrArg(s) =>
      var p := Join(root, Inner(s));
      if p in readable then Ok(p) else Err(Unresolvable)
  }

  /** The directory `start_logger` and `create_file_path` make under the logging directory. */
  function OutputDir(d: Path): Path {
    Join(d, "output")
  }

  /** `<dir>/output/settings.json`. */
  function SettingsFile(d: Path): Path {
    Join(OutputDir(d), "settings.json")
  }

  /** `<dir>/output/output.csv`. */
  function CsvFile(d: Path): Path {
    Join(OutputDir(d), "output.csv")
  }

  /** A joined path ends with the relative part, and starts with the base unless the part is absolute. */
  lemma JoinSpec(a: Path, b: string)
    ensures |Join(a, b)| >= |b| && Join(a, b)[|Join(a, b)| - |b|..] == b
    ensures (|b| == 0 || b[0] != '/') ==> |Join(a, b)| >= |a| && Join(a, b)[..|a|] == a
    ensures |b| > 0 && b[0] == '/' ==> Join(a, b) == b
  {
  }

  /**
   * `parse_path` succeeds exactly on a string whose inner part names a
   * readable directory under the root, and returns that directory.
   */
  lemma ParsePathOutcome(root: Path, arg: PathArg, readable: set<Path>)
    ensures ParsePath(root, arg, readable) == Err(NotAString) <==> arg.NotStr?
    ensures ParsePath(root, arg, readable).Ok? <==>
      arg.StrArg? && Join(root, Inner(arg.s)) in readable
    ensures ParsePath(root, arg, readable).Ok? ==>
      ParsePath(root, arg, readable).value == Join(root, Inner(arg.s)) &&
      ParsePath(root, arg, readable).value in readable
  {
  }

  /** A quoted relative name resolves to that name under the root. */
  lemma QuotedRelative(root: Path, name: string, readable: set<Path>)
    requires |root| > 0 && root[|root| - 1] != '/'
    requires |name| == 0 || name[0] != '/'
    requires root + "/" + name in readable
    ensures ParsePath(root, StrArg("\"" + name + "\""), readable) == Ok(root + "/" + name)
  {
    assert Inner("\"" + name + "\"") == name;
  }

  /** A quoted absolute name ignores the root altogether. */
  lemma QuotedAbsolute(root: Path, name: string, readable: set<Path>)
    requires |name| > 0 && name[0] == '/'
    ensures ParsePath(root, StrArg("\"" + name + "\""), readable) ==
      if name in readable then Ok(name) else Err(Unresolvable)
  {
    assert Inner("\"" + name + "\"") == name;
  }

  /**
   * Both output files sit in `OutputDir(d)`, and they are different files,
   * so writing one never touches the other.
   */
  lemma OutputFiles(d: Path)
    ensures SettingsFile(d) == OutputDir(d) + "/settings.json"
    ensures CsvFile(d) == OutputDir(d) + "/output.csv"
    ensures SettingsFile(d) != CsvFile(d)
  {
    var o := OutputDir(d);
    assert o[|o| - 1] == 't';
    var s := SettingsFile(d);
    var c := CsvFile(d);
    assert s[|o| + 1] == 's' && c[|o| + 1] == 'o';
  }
}
