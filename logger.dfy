/**
 * The logger's state machine (experiments/log.py:11-128, 184-271): the
 * global `LOGGER_STATE` dictionary and the two files it points at.
 * `start_logger` resets the CSV file to its header and empties an existing
 * settings file, `save_params` overwrites the settings file with a
 * non-empty parsed map, and `write_to_csv` appends one row per snapshot
 * entry, writing the header first only when the file is missing or empty.
 *
 * A `World` is the logger state together with the filesystem it touches:
 * the existing directories, each CSV file as its sequence of rows and each
 * settings file as a document. `Start`, `Save`, `Write` and
 * `CreateFilePaths` say what each operation returns and what world it
 * leaves; the methods of `Logger` do the same step by step on fields.
 */
module Logger {
  import opened Wrappers
  import opened Text
  import opened Settings
  import opened Snapshot
  import opened Paths

  /** `LOGGER_STATE`, as `init_logger_state` creates it and `start_logger` replaces it. */
  datatype LoggerState = LoggerState(
    startLogger: bool,
    loggingDirectory: Option<Path>,
    settingPath: Option<Path>,
    csvPath: Option<Path>,
    directoryArg: string)

  /** `init_logger_state()` (log.py:11-18). */
  function InitLoggerState(): LoggerState {
    LoggerState(false, None, None, None, "")
  }

  /** The state `start_logger` installs for the logging directory `d` (log.py:94-100). */
  function StartedState(d: Path, directory: string): LoggerState {
    LoggerState(true, Some(d), Some(SettingsFile(d)), Some(CsvFile(d)), directory)
  }

  /** Once the logger is started, all of its paths are set. */
  predicate ValidState(st: LoggerState) {
    st.startLogger ==> st.loggingDirectory.Some? && st.settingPath.Some? && st.csvPath.Some?
  }

  /** A CSV row: the header `timestamp,pattern,sti,lti`, or one snapshot entry. */
  datatype Row = Header | Data(timestamp: string, pattern: Value, sti: Value, lti: Value)

  /** A settings file: emptied by `start_logger`, or the JSON object `save_params` dumps. */
  datatype SettingsDoc = Blank | Json(entries: map<string, string>)

  /** An entry of a snapshot given as a list: a dict, a list or tuple, or anything else. */
  datatype Record = DictRecord(fields: map<string, Value>) | SeqRecord(items: seq<Value>) | OtherRecord

  /** The `snapshot` argument of `write_to_csv`. */
  datatype SnapshotArg = TextSnapshot(s: string) | RecordList(records: seq<Record>) | OtherSnapshot

  /** Everything the three operations raise. */
  datatype LogError =
    | BadPath(pathError: PathError)
    | BadSettings(parseError: ParseError)
    | BadSnapshot(snapshotError: SnapshotError)
    | MissingSettingPath  // `setting_path` is None, so `.open` fails (log.py:125-127)
    | MissingCsvPath      // "Logger state is missing csv_path." (log.py:200-201)
    | NotASnapshot        // TypeError "snapshot must be a list/tuple ..." (log.py:247-248)
    | BadEntry            // "Invalid snapshot entry format" (log.py:266-267)

  /** The logger state and the part of the filesystem the logger reads and writes. */
  datatype World = World(
    state: LoggerState,
    dirs: set<Path>,
    csv: map<Path, seq<Row>>,
    settings: map<Path, SettingsDoc>)

  /** The rows of a CSV file; a missing file reads as empty. */
  function Content(csv: map<Path, seq<Row>>, p: Path): seq<Row> {
    if p in csv then csv[p] else []
  }

  /** A CSV file is empty, or holds one header followed by data rows. */
  predicate WellFormedCsv(c: seq<Row>) {
    c == [] || (c[0] == Header && forall j :: 0 < j < |c| ==> c[j].Data?)
  }

  predicate AllWellFormed(csv: map<Path, seq<Row>>) {
    forall p :: p in csv ==> WellFormedCsv(csv[p])
  }

  // ---------------------------------------------------------------- start_logger

  /** `start_logger(directory)` (log.py:67-101) with the repository root `root`. */
  function Start(root: Path, w: World, directory: string): (Result<string, LogError>, World) {
    match ParsePath(root, StrArg(directory), w.dirs)
    case Err(e) => (Err(BadPath(e)), w)
    case Ok(d) =>
      var sp := SettingsFile(d);
      var settings := if sp in w.settings then w.settings[sp := Blank] else w.settings;
      (Ok("()"), World(StartedState(d, directory), w.dirs + {OutputDir(d)},
                       w.csv[CsvFile(d) := [Header]], settings))
  }

  // ----------------------------------------------------------------- save_params

  /** `save_params(params)` (log.py:106-128), with `str(params)` already taken. */
  function Save(w: World, params: string): (Result<(), LogError>, World) {
    if !w.state.startLogger then (Ok(()), w)
    else
      match SettingsOfText(params)
      case Err(e) => (Err(BadSettings(e)), w)
      case Ok(m) =>
        if |m| == 0 then (Ok(()), w)
        else
          match w.state.settingPath
          case None => (Err(MissingSettingPath), w)
          case Some(p) => (Ok(()), w.(settings := w.settings[p := Json(m)]))
  }

  // ---------------------------------------------------------------- write_to_csv

  /** The dict `{"entity", "value1", "value2"}` made of a parsed entry (log.py:243). */
  function EntryRecord(e: Entry): Record {
    DictRecord(map["entity" := Str(e.entity), "value1" := e.value1, "value2" := e.value2])
  }

  /** The list of entries `write_to_csv` iterates over, or the error raised before the file is opened. */
  function Records(snapshot: SnapshotArg): Result<seq<Record>, LogError> {
    match snapshot
    case TextSnapshot(s) =>
      (match SnapshotOfText(s)
       case Err(e) => Err(BadSnapshot(e))
       case Ok(es) => Ok(seq(|es|, j requires 0 <= j < |es| => EntryRecord(es[j]))))
    case RecordList(rs) => Ok(rs)
    case OtherSnapshot => Err(NotASnapshot)
  }

  /** An entry the row loop accepts: a dict, or a list or tuple of three values. */
  predicate IsEntry(r: Record) {
    r.DictRecord? || (r.SeqRecord? && |r.items| == 3)
  }

  /** `dict.get(k, d)`. */
  function Get(f: map<string, Value>, k: string, d: Value): Value {
    if k in f then f[k] else d
  }

  /** The row written for one entry at `timestamp` (log.py:260-269). */
  function RowOf(r: Record, timestamp: string): Row
    requires IsEntry(r)
  {
    match r
    case DictRecord(f) =>
      Data(timestamp, Get(f, "entity", Str("")), Get(f, "value1", Int(0)), Get(f, "value2", Int(0)))
    case SeqRecord(items) => Data(timestamp, items[0], items[1], items[2])
  }

  /** How many entries are written before the first one the loop rejects. */
  function GoodPrefix(rs: seq<Record>): (k: nat)
    ensures k <= |rs|
    ensures forall j :: 0 <= j < k ==> IsEntry(rs[j])
    ensures k < |rs| ==> !IsEntry(rs[k])
  {
    if rs == [] || !IsEntry(rs[0]) then 0 else 1 + GoodPrefix(rs[1..])
  }

  /** The rows of the first `n` entries. */
  function PrefixRows(rs: seq<Record>, n: nat, timestamp: string): seq<Row>
    requires n <= |rs| && forall j :: 0 <= j < n ==> IsEntry(rs[j])
  {
    seq(n, j requires 0 <= j < n => RowOf(rs[j], timestamp))
  }

  /** One more entry adds its row at the end. */
  lemma PrefixRowsStep(rs: seq<Record>, n: nat, timestamp: string)
    requires n < |rs| && forall j :: 0 <= j <= n ==> IsEntry(rs[j])
    ensures PrefixRows(rs, n + 1, timestamp) == PrefixRows(rs, n, timestamp) + [RowOf(rs[n], timestamp)]
  {
  }

  /** The data rows appended for the entries, up to the first bad one. */
  function RowsOf(rs: seq<Record>, timestamp: string): seq<Row> {
    PrefixRows(rs, GoodPrefix(rs), timestamp)
  }

  /** The file after opening it for appending and writing the header if it was empty. */
  function Opened(c: seq<Row>): seq<Row> {
    if c == [] then [Header] else c
  }

  /** `write_to_csv(snapshot)` (log.py:184-271), with `datetime.now()` given as `timestamp`. */
  function Write(w: World, snapshot: SnapshotArg, timestamp: string): (Result<(), LogError>, World) {
    if !w.state.startLogger then (Ok(()), w)
    else
      match w.state.csvPath
      case None => (Err(MissingCsvPath), w)
      case Some(p) =>
        match Records(snapshot)
        case Err(e) => (Err(e), w)
        case Ok(rs) => Append(w, p, rs, timestamp)
  }

  /** The `with csv_path.open("a")` block: the header if the file is empty, then the rows. */
  function Append(w: World, p: Path, rs: seq<Record>, timestamp: string): (Result<(), LogError>, World) {
    var c := Opened(Content(w.csv, p)) + RowsOf(rs, timestamp);
    (if GoodPrefix(rs) == |rs| then Ok(()) else Err(BadEntry), w.(csv := w.csv[p := c]))
  }

  // ------------------------------------------------------------ create_file_path

  /** The dictionary `create_file_path` returns. */
  datatype FilePaths = FilePaths(settingPath: Path, csvPath: Path)

  /** `create_file_path(file_path)` (log.py:46-62). */
  function CreateFilePaths(root: Path, w: World, arg: PathArg): (Result<FilePaths, LogError>, World) {
    match ParsePath(root, arg, w.dirs)
    case Err(e) => (Err(BadPath(e)), w)
    case Ok(d) => (Ok(FilePaths(SettingsFile(d), CsvFile(d))), w.(dirs := w.dirs + {OutputDir(d)}))
  }

  // ---------------------------------------------------------------- the logger

  /** The module's global state and the files it writes, updated in place. */
  class Logger {
    const root: Path
    var state: LoggerState
    var dirs: set<Path>
    var csv: map<Path, seq<Row>>
    var settings: map<Path, SettingsDoc>

    function Current(): World
      reads this
    {
      World(state, dirs, csv, settings)
    }

    /** A fresh module: `LOGGER_STATE = init_logger_state()` over an existing filesystem. */
    constructor (root: Path, dirs: set<Path>, csv: map<Path, seq<Row>>, settings: map<Path, SettingsDoc>)
      ensures this.root == root
      ensures Current() == World(InitLoggerState(), dirs, csv, settings)
    {
      this.root := root;
      this.state := InitLoggerState();
      this.dirs := dirs;
      this.csv := csv;
      this.settings := settings;
    }

    /** `start_logger(directory)`. */
    method StartLogger(directory: string) returns (r: Result<string, LogError>)
      modifies this
      ensures (r, Current()) == Start(root, old(Current()), directory)
    {
      var resolved := ParsePath(root, StrArg(directory), dirs);
      if resolved.Err? {
        return Err(BadPath(resolved.error));
      }
      var loggingDirectory := resolved.value;
      var logDir := OutputDir(loggingDirectory);
      if logDir !in dirs {
        dirs := dirs + {logDir};
      }
      assert dirs == old(dirs) + {logDir};
      var settingPath := SettingsFile(loggingDirectory);
      var csvPath := CsvFile(loggingDirectory);
      csv := csv[csvPath := [Header]];
      if settingPath in settings {
        settings := settings[settingPath := Blank];
      }
      state := LoggerState(true, Some(loggingDirectory), Some(settingPath), Some(csvPath), directory);
      return Ok("()");
    }

    /** `save_params(params)`. */
    method SaveParams(params: string) returns (r: Result<(), LogError>)
      modifies this
      ensures (r, Current()) == Save(old(Current()), params)
    {
      if !state.startLogger {
        return Ok(());
      }
      var parsed := ParseSetting(params);
      if parsed.Err? {
        return Err(BadSettings(parsed.error));
      }
      var m := parsed.value;
      if |m| == 0 {
        return Ok(());
      }
      if state.settingPath.None? {
        return Err(MissingSettingPath);
      }
      settings := settings[state.settingPath.value := Json(m)];
      return Ok(());
    }

    /** `write_to_csv(snapshot)`, stamped with `timestamp`. */
    method WriteToCsv(snapshot: SnapshotArg, timestamp: string) returns (r: Result<(), LogError>)
      modifies this
      ensures (r, Current()) == Write(old(Current()), snapshot, timestamp)
    {
      if !state.startLogger {
        return Ok(());
      }
      if state.csvPath.None? {
        return Err(MissingCsvPath);
      }
      var records := SnapshotRecords(snapshot);
      if records.Err? {
        return Err(records.error);
      }
      r := AppendRows(state.csvPath.value, records.value, timestamp);
    }

    /**
     * The `with csv_path.open("a")` block (log.py:252-269): the header if the
     * file is missing or empty, then one row per entry until an entry is
     * rejected.
     */
    method AppendRows(csvPath: Path, records: seq<Record>, timestamp: string) returns (r: Result<(), LogError>)
      modifies this
      ensures state == old(state) && dirs == old(dirs) && settings == old(settings)
      ensures csv == old(csv)[csvPath := Opened(Content(old(csv), csvPath)) + RowsOf(records, timestamp)]
      ensures r == if GoodPrefix(records) == |records| then Ok(()) else Err(BadEntry)
    {
      var writeHeader := csvPath !in csv || csv[csvPath] == [];
      if writeHeader {
        csv := csv[csvPath := [Header]];
      }
      var file := csv[csvPath];
      ghost var base := file;
      assert base == Opened(Content(old(csv), csvPath));
      assert base + PrefixRows(records, 0, timestamp) == base;
      for i := 0 to |records|
        invariant forall j :: 0 <= j < i ==> IsEntry(records[j])
        invariant file == base + PrefixRows(records, i, timestamp)
        invariant csv == old(csv)[csvPath := file]
        invariant state == old(state) && dirs == old(dirs) && settings == old(settings)
      {
        var row: Row;
        match records[i] {
          case DictRecord(f) =>
            row := Data(timestamp, Get(f, "entity", Str("")), Get(f, "value1", Int(0)), Get(f, "value2", Int(0)));
          case SeqRecord(items) =>
            if |items| != 3 {
              NoMoreRows(records, i, timestamp);
              return Err(BadEntry);
            }
            row := Data(timestamp, items[0], items[1], items[2]);
          case OtherRecord =>
            NoMoreRows(records, i, timestamp);
            return Err(BadEntry);
        }
        assert IsEntry(records[i]) && row == RowOf(records[i], timestamp);
        PrefixRowsStep(records, i, timestamp);
        ghost var written := PrefixRows(records, i, timestamp);
        assert file + [row] == base + (written + [row]);
        file := file + [row];
        assert old(csv)[csvPath := file] == csv[csvPath := file];
        csv := csv[csvPath := file];
      }
      NoMoreRows(records, |records|, timestamp);
      return Ok(());
    }
  }

  /**
   * The entries `write_to_csv` loops over: the parsed entries of a snapshot
   * string, a list as given, or the `TypeError` for anything else.
   */
  method SnapshotRecords(snapshot: SnapshotArg) returns (r: Result<seq<Record>, LogError>)
    ensures r == Records(snapshot)
  {
    match snapshot {
      case TextSnapshot(s) =>
        var parsed := ParseSnapshotText(s);
        if parsed.Err? {
          return Err(BadSnapshot(parsed.error));
        }
        var es := parsed.value;
        return Ok(seq(|es|, j requires 0 <= j < |es| => EntryRecord(es[j])));
      case RecordList(rs) =>
        return Ok(rs);
      case OtherSnapshot =>
        return Err(NotASnapshot);
    }
  }

  /** The rows written before the first rejected entry, or for all entries when none is rejected. */
  lemma NoMoreRows(rs: seq<Record>, i: nat, timestamp: string)
    requires i <= |rs|
    requires forall j :: 0 <= j < i ==> IsEntry(rs[j])
    requires i < |rs| ==> !IsEntry(rs[i])
    ensures GoodPrefix(rs) == i
    ensures RowsOf(rs, timestamp) == PrefixRows(rs, i, timestamp)
  {
  }

  // ------------------------------------------------------------- properties

  /** Before `start_logger` has run, `save_params` and `write_to_csv` return at once and touch nothing. */
  lemma NotStartedIsNoOp(w: World, params: string, snapshot: SnapshotArg, timestamp: string)
    requires !w.state.startLogger
    ensures Save(w, params) == (Ok(()), w)
    ensures Write(w, snapshot, timestamp) == (Ok(()), w)
  {
  }

  /**
   * `start_logger` fails, changing nothing, exactly when the directory does
   * not resolve; otherwise the CSV file holds just the header, an existing
   * settings file is emptied but not removed, the state points at the
   * output files, and no other file changes.
   */
  lemma StartResets(root: Path, w: World, directory: string)
    ensures Start(root, w, directory).0.Err? <==> Join(root, Inner(directory)) !in w.dirs
    ensures Start(root, w, directory).0.Err? ==> Start(root, w, directory).1 == w
    ensures Start(root, w, directory).0.Ok? ==>
      var d := Join(root, Inner(directory));
      var w' := Start(root, w, directory).1;
      && w'.state == StartedState(d, directory)
      && Content(w'.csv, CsvFile(d)) == [Header]
      && (SettingsFile(d) in w'.settings <==> SettingsFile(d) in w.settings)
      && (SettingsFile(d) in w'.settings ==> w'.settings[SettingsFile(d)] == Blank)
      && w'.settings - {SettingsFile(d)} == w.settings - {SettingsFile(d)}
      && w'.csv - {CsvFile(d)} == w.csv - {CsvFile(d)}
      && w'.dirs == w.dirs + {OutputDir(d)}
  {
    var d := Join(root, Inner(directory));
    if Start(root, w, directory).0.Ok? {
      var w' := Start(root, w, directory).1;
      var sp := SettingsFile(d);
      assert w'.settings - {sp} == w.settings - {sp};
      assert w'.csv - {CsvFile(d)} == w.csv - {CsvFile(d)};
    }
  }

  /**
   * Calling `start_logger` again discards every row and settings document
   * written since the previous call: the CSV file is back to the header, and
   * the settings file, whether it was there before or `save_params` wrote
   * it, is emptied.
   */
  lemma RestartDiscardsRows(root: Path, w: World, directory: string,
                            snapshot: SnapshotArg, timestamp: string, params: string)
    requires Start(root, w, directory).0.Ok?
    ensures
      var w1 := Start(root, w, directory).1;
      var w2 := Save(Write(w1, snapshot, timestamp).1, params).1;
      var (r3, w3) := Start(root, w2, directory);
      && r3.Ok?
      && w3.state == w1.state
      && Content(w3.csv, w1.state.csvPath.value) == [Header]
      && (var sp := w1.state.settingPath.value;
          && (sp in w3.settings <==> sp in w2.settings)
          && (sp in w3.settings ==> w3.settings[sp] == Blank))
  {
    var w1 := Start(root, w, directory).1;
    var wr := Write(w1, snapshot, timestamp).1;
    WriteFrame(w1, snapshot, timestamp);
    SaveOnlyNonEmpty(wr, params);
    var w2 := Save(wr, params).1;
    var d := Join(root, Inner(directory));
    assert d in w2.dirs;
  }

  /**
   * "Logger state is missing csv_path." is raised exactly when the logger is
   * started but has no CSV path, before the snapshot is looked at, and then
   * nothing changes.
   */
  lemma MissingCsvPathRaised(w: World, snapshot: SnapshotArg, timestamp: string)
    ensures Write(w, snapshot, timestamp).0 == Err(MissingCsvPath) <==>
              w.state.startLogger && w.state.csvPath.None?
    ensures w.state.csvPath.None? ==> Write(w, snapshot, timestamp).1 == w
  {
  }

  /**
   * A dict entry is read with defaults: a missing `entity` gives `""`, a
   * missing `value1` or `value2` gives 0, a present key gives its value,
   * and no other key matters.
   */
  lemma DictRowDefaults(f: map<string, Value>, timestamp: string, k: string, v: Value)
    requires k != "entity" && k != "value1" && k != "value2"
    ensures var row := RowOf(DictRecord(f), timestamp);
            && row.timestamp == timestamp
            && row.pattern == (if "entity" in f then f["entity"] else Str(""))
            && row.sti == (if "value1" in f then f["value1"] else Int(0))
            && row.lti == (if "value2" in f then f["value2"] else Int(0))
    ensures RowOf(DictRecord(f[k := v]), timestamp) == RowOf(DictRecord(f), timestamp)
  {
  }

  /** `write_to_csv` only appends: every file's old rows are a prefix of its new rows. */
  lemma WriteAppendOnly(w: World, snapshot: SnapshotArg, timestamp: string, p: Path)
    ensures Content(w.csv, p) <= Content(Write(w, snapshot, timestamp).1.csv, p)
  {
    var w' := Write(w, snapshot, timestamp).1;
    if w' != w {
      var q := w.state.csvPath.value;
      var c := Content(w.csv, q);
      var rs := Records(snapshot).value;
      if p == q {
        assert Content(w'.csv, p) == Opened(c) + RowsOf(rs, timestamp);
        if c != [] {
          assert c <= c + RowsOf(rs, timestamp);
        }
      } else {
        assert Content(w'.csv, p) == Content(w.csv, p);
      }
    }
  }

  /** Every row `write_to_csv` produces is a data row carrying the one timestamp of the call. */
  lemma RowsAreStamped(rs: seq<Record>, timestamp: string)
    ensures |RowsOf(rs, timestamp)| == GoodPrefix(rs)
    ensures forall j :: 0 <= j < |RowsOf(rs, timestamp)| ==>
      RowsOf(rs, timestamp)[j].Data? && RowsOf(rs, timestamp)[j].timestamp == timestamp
  {
    forall j | 0 <= j < GoodPrefix(rs)
      ensures RowsOf(rs, timestamp)[j].Data? && RowsOf(rs, timestamp)[j].timestamp == timestamp
    {
      assert RowsOf(rs, timestamp)[j] == RowOf(rs[j], timestamp);
    }
  }

  /**
   * What one `write_to_csv` call adds to the file: the header only if the
   * file was missing or empty, then the rows of the entries in input order,
   * stopping at the first rejected entry, which raises. Nothing else changes.
   */
  lemma AppendSpec(w: World, p: Path, rs: seq<Record>, timestamp: string)
    ensures
      var (r, w') := Append(w, p, rs, timestamp);
      && Content(w'.csv, p) == Content(w.csv, p) + (if Content(w.csv, p) == [] then [Header] else []) + RowsOf(rs, timestamp)
      && (r == Ok(()) <==> forall j :: 0 <= j < |rs| ==> IsEntry(rs[j]))
      && (r != Ok(()) ==> r == Err(BadEntry))
      && w'.csv - {p} == w.csv - {p}
      && w'.state == w.state && w'.dirs == w.dirs && w'.settings == w.settings
  {
    var w' := Append(w, p, rs, timestamp).1;
    assert w'.csv - {p} == w.csv - {p};
    if forall j :: 0 <= j < |rs| ==> IsEntry(rs[j]) {
      NoMoreRows(rs, |rs|, timestamp);
    }
  }

  /** `write_to_csv` touches nothing but the CSV files. */
  lemma WriteFrame(w: World, snapshot: SnapshotArg, timestamp: string)
    ensures var w' := Write(w, snapshot, timestamp).1;
            w'.state == w.state && w'.dirs == w.dirs && w'.settings == w.settings
  {
  }

  /** Once the logger is started with a CSV path and the snapshot is understood, `write_to_csv` is `Append`. */
  lemma WriteIsAppend(w: World, snapshot: SnapshotArg, timestamp: string)
    requires w.state.startLogger && w.state.csvPath.Some? && Records(snapshot).Ok?
    ensures Write(w, snapshot, timestamp) == Append(w, w.state.csvPath.value, Records(snapshot).value, timestamp)
  {
  }

  /** A rejected entry raises only after the header and all earlier rows are in the file. */
  lemma BadEntryKeepsEarlierRows(w: World, rs: seq<Record>, k: nat, timestamp: string)
    requires w.state.startLogger && w.state.csvPath.Some?
    requires k < |rs| && !IsEntry(rs[k]) && forall j :: 0 <= j < k ==> IsEntry(rs[j])
    ensures
      var p := w.state.csvPath.value;
      var (r, w') := Write(w, RecordList(rs), timestamp);
      && r == Err(BadEntry)
      && Content(w'.csv, p) == Opened(Content(w.csv, p)) + PrefixRows(rs, k, timestamp)
  {
    NoMoreRows(rs, k, timestamp);
    WriteIsAppend(w, RecordList(rs), timestamp);
  }

  /** A snapshot that cannot be parsed, or is of the wrong type, raises before the file is opened. */
  lemma BadSnapshotWritesNothing(w: World, snapshot: SnapshotArg, timestamp: string)
    requires Records(snapshot).Err?
    ensures Write(w, snapshot, timestamp).1 == w
    ensures w.state.startLogger && w.state.csvPath.Some? ==>
      Write(w, snapshot, timestamp).0 == Err(Records(snapshot).error)
  {
  }

  /** The rows of parsed snapshot entries: every entry is accepted, and keeps its place. */
  lemma EntryRows(es: seq<Entry>, timestamp: string)
    ensures RowsOf(seq(|es|, j requires 0 <= j < |es| => EntryRecord(es[j])), timestamp) ==
      seq(|es|, j requires 0 <= j < |es| => Data(timestamp, Str(es[j].entity), es[j].value1, es[j].value2))
  {
    var rs := seq(|es|, j requires 0 <= j < |es| => EntryRecord(es[j]));
    NoMoreRows(rs, |rs|, timestamp);
    var rows := RowsOf(rs, timestamp);
    var expected := seq(|es|, j requires 0 <= j < |es| => Data(timestamp, Str(es[j].entity), es[j].value1, es[j].value2));
    forall j | 0 <= j < |es| ensures rows[j] == expected[j] {
      assert rows[j] == RowOf(EntryRecord(es[j]), timestamp);
    }
  }

  /**
   * A parsed snapshot string is written as one row per element, in order,
   * with the entity as `pattern` and the two values as `sti` and `lti`.
   */
  lemma TextSnapshotRows(w: World, s: string, timestamp: string)
    requires w.state.startLogger && w.state.csvPath.Some? && SnapshotOfText(s).Ok?
    ensures
      var p := w.state.csvPath.value;
      var es := SnapshotOfText(s).value;
      var (r, w') := Write(w, TextSnapshot(s), timestamp);
      && r == Ok(())
      && Content(w'.csv, p) == Opened(Content(w.csv, p)) +
           seq(|es|, j requires 0 <= j < |es| => Data(timestamp, Str(es[j].entity), es[j].value1, es[j].value2))
  {
    var es := SnapshotOfText(s).value;
    var rs := seq(|es|, j requires 0 <= j < |es| => EntryRecord(es[j]));
    assert Records(TextSnapshot(s)) == Ok(rs);
    WriteIsAppend(w, TextSnapshot(s), timestamp);
    EntryRows(es, timestamp);
    NoMoreRows(rs, |rs|, timestamp);
  }

  /**
   * `save_params` either changes nothing, or (started, a non-empty parse)
   * replaces the whole settings document with the parsed map; it never
   * touches the CSV files, the directories or the state.
   */
  lemma SaveOnlyNonEmpty(w: World, params: string)
    ensures
      var (r, w') := Save(w, params);
      var parsed := SettingsOfText(params);
      && w'.state == w.state && w'.csv == w.csv && w'.dirs == w.dirs
      && (if w.state.startLogger && parsed.Ok? && |parsed.value| > 0 && w.state.settingPath.Some?
          then w'.settings == w.settings[w.state.settingPath.value := Json(parsed.value)] && r == Ok(())
          else w' == w)
      && (r.Err? <==>
            w.state.startLogger && (parsed.Err? || (|parsed.value| > 0 && w.state.settingPath.None?)))
  {
  }

  /** An empty or whitespace-only parameter text is never written. */
  lemma BlankParamsNotSaved(w: World, params: string)
    requires AllSpace(params)
    ensures Save(w, params) == (Ok(()), w)
  {
    SettingsOfTextOutcome(params);
  }

  /** Every operation keeps the state valid, so a started logger never lacks a path. */
  lemma ValidStateKept(root: Path, w: World, directory: string, params: string,
                       snapshot: SnapshotArg, timestamp: string, arg: PathArg)
    requires ValidState(w.state)
    ensures ValidState(InitLoggerState())
    ensures ValidState(Start(root, w, directory).1.state)
    ensures ValidState(Save(w, params).1.state)
    ensures ValidState(Write(w, snapshot, timestamp).1.state)
    ensures ValidState(CreateFilePaths(root, w, arg).1.state)
    ensures Save(w, params).0 != Err(MissingSettingPath)
    ensures Write(w, snapshot, timestamp).0 != Err(MissingCsvPath)
  {
  }

  /** Appending keeps a CSV file to one header followed by data rows. */
  lemma AppendWellFormed(w: World, p: Path, rs: seq<Record>, timestamp: string)
    requires AllWellFormed(w.csv)
    ensures AllWellFormed(Append(w, p, rs, timestamp).1.csv)
  {
    var rows := RowsOf(rs, timestamp);
    RowsAreStamped(rs, timestamp);
    var c := Opened(Content(w.csv, p));
    assert WellFormedCsv(c);
    var c' := c + rows;
    assert WellFormedCsv(c') by {
      forall j | 0 < j < |c'| ensures c'[j].Data? {
        if j >= |c| { assert c'[j] == rows[j - |c|]; }
      }
    }
    assert Append(w, p, rs, timestamp).1.csv == w.csv[p := c'];
  }

  /** `write_to_csv` keeps every CSV file empty or one header followed by data rows. */
  lemma WriteWellFormed(w: World, snapshot: SnapshotArg, timestamp: string)
    requires AllWellFormed(w.csv)
    ensures AllWellFormed(Write(w, snapshot, timestamp).1.csv)
  {
    if w.state.startLogger && w.state.csvPath.Some? && Records(snapshot).Ok? {
      WriteIsAppend(w, snapshot, timestamp);
      AppendWellFormed(w, w.state.csvPath.value, Records(snapshot).value, timestamp);
    }
  }

  /** Every CSV file stays empty or one header followed by data rows. */
  lemma WellFormedKept(root: Path, w: World, directory: string, params: string,
                       snapshot: SnapshotArg, timestamp: string, arg: PathArg)
    requires AllWellFormed(w.csv)
    ensures AllWellFormed(Start(root, w, directory).1.csv)
    ensures AllWellFormed(Save(w, params).1.csv)
    ensures AllWellFormed(Write(w, snapshot, timestamp).1.csv)
    ensures AllWellFormed(CreateFilePaths(root, w, arg).1.csv)
  {
    WriteWellFormed(w, snapshot, timestamp);
    assert Save(w, params).1.csv == w.csv;
    assert CreateFilePaths(root, w, arg).1.csv == w.csv;
  }

  /** `create_file_path` and `start_logger` agree on where the two output files are. */
  lemma FilePathsAgree(root: Path, w: World, directory: string)
    requires CreateFilePaths(root, w, StrArg(directory)).0.Ok?
    ensures
      var paths := CreateFilePaths(root, w, StrArg(directory)).0.value;
      var st := Start(root, w, directory).1.state;
      && st.settingPath == Some(paths.settingPath)
      && st.csvPath == Some(paths.csvPath)
      && paths.settingPath != paths.csvPath
  {
    OutputFiles(Join(root, Inner(directory)));
  }
}
