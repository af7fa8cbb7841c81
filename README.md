# Telemetry logger of metta-attention, in Dafny

This project models the telemetry logger of the metta-attention experiments,
`experiments/log.py`, and proves properties of the model. The logger has three parts.

- **A depth-counting splitter for S-expressions.** It scans the text inside
  the outer parentheses, counts `(` as +1 and `)` as -1, and collects each
  top-level `( ... )` group as the depth returns to zero. Both parsers carry
  their own copy of this loop. It is modelled once, as
  `Splitter.CollectTopLevel`, and both parsers call it.
- **Two record builders on top of the splitter.**
  - `parse_setting` turns `((PRED VALUE) ...)` into a map from each
    predicate to its verbatim value text (`Settings`).
  - The string branch of `write_to_csv` turns
    `((Entity (TAG v1 v2 ...)) ...)` into `{entity, value1, value2}`
    entries (`Snapshot`).
- **A small state machine over a global state and two files.**
  - The state is `LOGGER_STATE`.
  - The two files are `<dir>/output/output.csv` and
    `<dir>/output/settings.json`.
  - The operations are `start_logger`, `save_params`, `write_to_csv` and
    `create_file_path`. They depend on `parse_path` (`Paths`).

The modules are:

| file | module | what it holds |
|---|---|---|
| `wrappers.dfy` | `Wrappers` | `Option` and `Result` |
| `text.dfy` | `Text` | Python's `strip`, `re.split(r"\s+", s, maxsplit=1)`, `split()` and `s[1:-1]` over an ASCII whitespace set, and `Spaced`: pieces written in order with given text between them |
| `splitter.dfy` | `Splitter` | the scan as a function per prefix (`Scan`), its meaning (`ScanOk`, `ScanInv`), the loop `CollectTopLevel`, and its inverse: groups written by `Spaced` with parenthesis-free text between them split back into those groups |
| `settings.dfy` | `Settings` | `SettingsOfText` (specification), `ParseSetting` (the code's loops), and the render/parse round trip |
| `snapshot.dfy` | `Snapshot` | `SnapshotOfText` (specification), `ParseSnapshotText` (the code's loops), and the render/parse round trip |
| `paths.dfy` | `Paths` | POSIX `os.path.join`, `parse_path`, and the output file locations |
| `logger.dfy` | `Logger` | the pure transitions `Start`, `Save`, `Write` and `CreateFilePaths` over a `World`, the class `Logger` whose methods are proved equal to them, and the state-machine lemmas |

A `World` is the logger state together with the filesystem the logger
touches:

- the set of existing readable directories;
- each CSV file as its sequence of rows (`Header` or `Data`);
- each settings file as a document (`Blank` or `Json(map)`).

A missing key means a missing file. The current time, the repository root
and the initial filesystem are parameters.

## Where the code and its description differ

The model follows the code in each of these cases.

**`parse_setting`**
- **Unwrapped groups are lost.** `parse_setting("(A 1)(B 2)")` returns
  `{}`, not `{A: "1", B: "2"}`.
  - The text passes the outer check.
  - The `)` of `(A 1` drives the depth to -1.
  - The `(` of `(B 2` only brings it back to 0, so nothing is collected.
  - See `Settings.UnwrappedGroupsAreLost`.
- **A missing final `)` is reported as a format error.** `"(A 1"` raises
  "must be a single parenthesized S-expression", not "Unbalanced". An
  unclosed inner group such as `"((A 1)"` is what raises "Unbalanced".
- **Empty or whitespace-only input differs between the parsers.**
  `parse_setting` returns `{}`. The snapshot string branch raises "Invalid
  snapshot string format".
- **A stray `)` is only caught through the final depth.** It drives the
  depth negative, and that is caught only if the final depth is not zero.
  The `start is not None` test never fails, because `start` is set exactly
  when the depth is positive (`Splitter.EmitWhenDepthReturnsToZero`).

**Snapshot string branch**
- **A single value is not kept.** `((Bees (AV 1)))` gives `value1 = value2 = 0`.
  Both values are taken only when at least two tokens follow the tag
  (`Snapshot.SingleValueDropped`).
- **An empty element still gives an entry.** `()` yields an entry with an
  empty entity, whereas `parse_setting` skips it
  (`Snapshot.EmptyElementKept`).
- **The values must sit in their own pair.** After the entity, the code cuts
  one character off each end of the rest of the element whether or not it is
  parenthesized.
  - With single-character outer tokens, as in `(E 1 2 3)`, the rest `1 2 3`
    is cut to ` 2 `. Its only token `2` is taken as the tag, no values
    follow, and `value1 = value2 = 0` (`Snapshot.UnwrappedValuesDropped`).
  - With longer outer tokens the cut leaves the other characters behind.
    `(E 12 2 34)` is cut to `2 2 3`: the tag is `2` and the values are `2`
    and `3`, neither of them a written value
    (`Snapshot.UnwrappedValuesTruncated`).

**`parse_setting` on a snapshot-shaped element**
- **A word before the inner pair is passed over.** `parse_setting("(A (Foo 1 2))")`
  returns `{"Foo": "1 2"}`: the splitter skips `A`, and the only element is
  the inner pair (`Settings.OuterWordDropped`).

## Model

| member | source | states |
|---|---|---|
| Text.StripEmptyIff | experiments/log.py:142-143 | stripping leaves nothing exactly when the text is all whitespace |
| Text.StripSlice | experiments/log.py:145 | `strip()` returns the slice between the first and last non-whitespace characters, with only whitespace cut off on either side |
| Text.SplitFirstSpec | experiments/log.py:177 | the first part has no whitespace; with two parts, the text is the first part, then a non-empty whitespace run, then the second part, which starts with a non-space |
| Text.SplitFirstWhole | experiments/log.py:177 | the text is not split exactly when it contains no whitespace |
| Text.WordsSpaced | experiments/log.py:239 | `split()` gives back exactly the words of text made of non-empty whitespace-free words separated by non-empty whitespace runs, with any whitespace before and after |
| Text.WordsSpec | experiments/log.py:239 | every token `split()` returns is non-empty and free of whitespace |
| Text.StripPadded | experiments/log.py:145 | `strip()` removes exactly whitespace padding around text with no whitespace at its ends |
| Text.SplitFirstAtRun | experiments/log.py:177 | a word, a non-empty whitespace run and text not starting with whitespace split into the word and that text |
| Splitter.ScanInv | experiments/log.py:156-165 | after each prefix, the collected spans are exactly the top-level groups closed so far, in order and without overlap; `start` is set exactly when the depth is positive, at the opening of the open group |
| Splitter.CollectTopLevel | experiments/log.py:153-168 | the loop returns exactly the top-level elements of the content and its final depth |
| Splitter.TopLevel | experiments/log.py:153-165 | every element is a top-level group and a contiguous substring of the content, starting with `(` and ending with `)`; there is one element per span |
| Splitter.SpansOrdered | experiments/log.py:156-165 | elements appear in left-to-right order and never overlap |
| Splitter.GroupsCollected | experiments/log.py:156-165 | every top-level group of the content is collected |
| Splitter.EmitWhenDepthReturnsToZero | experiments/log.py:161-165 | an element is emitted exactly when a `)` brings the depth from 1 to 0, and `start` is always set then |
| Splitter.ElementBalanced | experiments/log.py:156-165 | each element is balanced on its own: its depth is positive inside and 0 at its end |
| Splitter.ScanSeesOnlyParens | experiments/log.py:156-165 | the scan depends only on where the parentheses are |
| Splitter.OutsideGroupsIgnored | experiments/log.py:156-165 | changing non-parenthesis characters outside every element changes neither the elements nor the final depth |
| Splitter.SpacedClosed | experiments/log.py:156-165 | scanning balanced groups with parenthesis-free text between them ends at depth 0 with no group open |
| Splitter.TopLevelSpaced | experiments/log.py:153-168 | the inverse: scanning balanced groups with parenthesis-free text between them gives back exactly those groups |
| Splitter.TopLevelAfterFlat | experiments/log.py:156-165 | text without parentheses before one group is skipped: that group is the only element |
| Settings.ParseSetting | experiments/log.py:130-182 | `parse_setting` runs the splitter loop and the dictionary loop, and returns or raises exactly what `SettingsOfText` says |
| Settings.BuildSettings | experiments/log.py:170-180 | the dictionary loop builds the map of the element pairs in order |
| Settings.SettingsOfTextOutcome | experiments/log.py:142-168 | blank input gives `{}`; the "not a single parenthesized S-expression" and "Unbalanced" errors each occur exactly in their case |
| Settings.SettingOfSpec | experiments/log.py:173-179 | an element is skipped exactly when its body is empty; the key is the body's first whitespace-free token; the value is the rest of the body, stripped and kept verbatim, or `""` |
| Settings.MapOfKeys | experiments/log.py:170-180 | the keys of the map are exactly the keys of the non-empty elements |
| Settings.LastWins | experiments/log.py:170-180 | a key holds the value of its last pair |
| Settings.SettingsLastWins | experiments/log.py:170-180 | for settings: a predicate maps to the value of the last element naming it |
| Settings.EmptyElementSkipped | experiments/log.py:173-175 | an element with an empty body such as `()` adds nothing |
| Settings.ParseSettingsText | experiments/log.py:130-182 | round trip: writing pairs as `((PRED VALUE) ...)`, with any whitespace around and between the elements, and parsing gives back their map, with later pairs winning |
| Settings.WrappedGroups | experiments/log.py:142-168 | groups written inside one outer pair, with any whitespace around and between them, pass the outer check and the depth check, and the splitter gives back exactly those groups |
| Settings.OuterWordDropped | experiments/log.py:150-182 | `(A (Foo 1 2))` gives `{"Foo": "1 2"}`: the word before the inner pair is not an element |
| Settings.UnwrappedGroupsAreLost | experiments/log.py:145-168 | `"(A 1)(B 2)"` parses to the empty map |
| Settings.UnclosedIsNotSExpression | experiments/log.py:145-147 | `"(A 1"` raises the "not a parenthesized S-expression" error |
| Settings.UnclosedInnerIsUnbalanced | experiments/log.py:167-168 | `"((A 1)"` raises the "Unbalanced" error |
| Snapshot.ParseSnapshotText | experiments/log.py:204-244 | the string branch runs the same splitter loop and the entry loop, and returns or raises exactly what `SnapshotOfText` says |
| Snapshot.SnapshotOfTextOutcome | experiments/log.py:205-225 | "Invalid snapshot string format" is raised exactly for text not wrapped in parentheses, including blank text; "Unbalanced" is raised exactly when the final depth is not zero |
| Snapshot.EntryOfReading | experiments/log.py:229-243 | for a reading written with any whitespace inside its two pairs: the entity is the first token; the tag is skipped; the values are the next two tokens when there are at least two, otherwise both are 0; further tokens are ignored |
| Snapshot.ReadingEntries | experiments/log.py:228-243 | the entry loop turns each written reading, whatever its spacing, into its expected entry, in order |
| Snapshot.ParseSnapshot | experiments/log.py:204-244 | round trip: writing readings as `((E (TAG v ...)) ...)`, with any whitespace inside each reading and around and between the readings, and parsing gives one entry per reading, in order |
| Snapshot.EntryOfElement | experiments/log.py:231-243 | for any element `(E REST)`: the entity is `E`, and the values are the tokens after the first one in `REST` with one character cut off each end, taken only when there are two |
| Snapshot.UnwrappedValuesDropped | experiments/log.py:234-242 | `(E a v b)` without an inner pair, with single-character `a` and `b`, gives entity `E` and both values 0 |
| Snapshot.UnwrappedValuesTruncated | experiments/log.py:234-242 | `(E aX V Yb)` without an inner pair, with single characters `a` and `b`, gives entity `E` and the values `V` and `Y`: the tag is `X` and the outer tokens lose a character |
| Snapshot.EntityOnly | experiments/log.py:233-235 | an element holding only an entity gives that entity with both values 0 |
| Snapshot.EmptyElementKept | experiments/log.py:231-243 | `()` gives an entry with an empty entity, and `parse_setting` would skip it |
| Snapshot.ThirdValueIgnored | experiments/log.py:229-243 | an element shaped like `(E (TAG v1 v2 v3))` gives entity `E` with values `v1` and `v2`; the token after them is ignored |
| Snapshot.SingleValueDropped | experiments/log.py:234-242 | an element `(E (TAG v))` with a single value gives entity `E` with both values 0 |
| Paths.JoinSpec | experiments/log.py:36 | a joined path ends with the relative part; it starts with the base unless the part is absolute, in which case the part is the whole result |
| Paths.ParsePathOutcome | experiments/log.py:25-41 | a non-string raises `TypeError`; a string succeeds exactly when the root joined with its inner part is a readable directory, which is the result |
| Paths.QuotedRelative | experiments/log.py:35-39 | a quoted relative name resolves to `root/name` |
| Paths.QuotedAbsolute | experiments/log.py:35-39 | a quoted absolute name ignores the root |
| Paths.OutputFiles | experiments/log.py:76-81 | both output files sit in `<dir>/output` and are different files |
| Logger.Logger.constructor | experiments/log.py:11-18 | a fresh logger holds `init_logger_state()`: not started, no paths |
| Logger.Logger.StartLogger | experiments/log.py:67-101 | the method's result and new fields are exactly `Start` of the old ones |
| Logger.Logger.SaveParams | experiments/log.py:108-128 | the method's result and new fields are exactly `Save` of the old ones |
| Logger.Logger.WriteToCsv | experiments/log.py:184-271 | the method's result and new fields are exactly `Write` of the old ones |
| Logger.Logger.AppendRows | experiments/log.py:252-269 | the file gets the header if it was missing or empty, then one row per entry up to the first rejected entry, which raises; nothing else changes |
| Logger.GoodPrefix | experiments/log.py:259-267 | the number of entries written is the index of the first entry that is neither a dict nor a 3-element list |
| Logger.NotStartedIsNoOp | experiments/log.py:196-197 | before `start_logger`, `write_to_csv` and `save_params` return without touching anything |
| Logger.StartResets | experiments/log.py:67-101 | `start_logger` fails and changes nothing exactly when the directory does not resolve; otherwise the CSV file is just the header, an existing settings file is emptied rather than removed, the state points at `<dir>/output/...`, and no other file changes |
| Logger.RestartDiscardsRows | experiments/log.py:85-91 | starting again after writes and saves resets the CSV file to the header, and the settings file exists afterwards exactly when it existed before, and is then empty |
| Logger.MissingCsvPathRaised | experiments/log.py:199-201 | "missing csv_path" is raised exactly when the logger is started without a CSV path, and then nothing changes |
| Logger.DictRowDefaults | experiments/log.py:260-263 | a dict entry missing `entity` writes `""`, missing `value1` or `value2` writes 0, present keys write their values, and other keys are ignored |
| Logger.WriteAppendOnly | experiments/log.py:252-269 | the old rows of every file are a prefix of its new rows |
| Logger.RowsAreStamped | experiments/log.py:250-269 | every appended row is a data row with the call's single timestamp |
| Logger.AppendSpec | experiments/log.py:252-269 | the header is added exactly when the file was empty, then the rows of the entries in order; success exactly when every entry is accepted; other files and the state are unchanged |
| Logger.WriteFrame | experiments/log.py:184-271 | `write_to_csv` changes neither the state, the directories nor the settings files |
| Logger.WriteIsAppend | experiments/log.py:196-255 | once started with a CSV path and a usable snapshot, `write_to_csv` is that append |
| Logger.BadEntryKeepsEarlierRows | experiments/log.py:259-267 | a rejected entry raises only after the header and all earlier rows are in the file |
| Logger.BadSnapshotWritesNothing | experiments/log.py:204-248 | a snapshot that fails to parse, or has the wrong type, raises before the file is opened |
| Logger.EntryRows | experiments/log.py:259-269 | parsed entries are always accepted and become rows `timestamp, entity, value1, value2` in order |
| Logger.TextSnapshotRows | experiments/log.py:204-269 | a parsed snapshot string adds one row per element, in order, and succeeds |
| Logger.SaveOnlyNonEmpty | experiments/log.py:117-128 | `save_params` changes nothing unless the logger is started and the parse is a non-empty map; then it replaces the whole settings document with that map; it never touches the CSV files or the state |
| Logger.BlankParamsNotSaved | experiments/log.py:121-123 | blank parameter text is never written |
| Logger.ValidStateKept | experiments/log.py:94-100 | every operation keeps "started implies all paths set", so the missing-path errors never occur from `init_logger_state()` |
| Logger.AppendWellFormed | experiments/log.py:252-269 | appending keeps a CSV file as one header followed by data rows |
| Logger.WriteWellFormed | experiments/log.py:252-269 | `write_to_csv` keeps every CSV file empty or as one header followed by data rows |
| Logger.WellFormedKept | experiments/log.py:85-87 | all four operations keep every CSV file empty or as one header followed by data rows |
| Logger.FilePathsAgree | experiments/log.py:46-62 | `create_file_path` and `start_logger` agree on where the two output files are |

## Left out

- Snapshot.EntryOf: a value token that is not a Python float literal makes
  `float` raise `ValueError`. The model keeps the token as `Float(token)` and
  does not model that error or the conversion to an IEEE double.
- JSON and CSV serialisation are left out: `json.dump` with indentation, CSV
  quoting, and number formatting. The files are modelled as a map and as a
  sequence of rows.
- The `print` at the end of `write_to_csv` is left out. It is output only.
- Filesystem queries are collapsed into one set of existing readable
  directories:
  - `exists()`, `is_dir()` and `os.access` in `parse_path`;
  - `log_dir.exists()` before `mkdir`.

  Failures of `mkdir` or `open` are not modelled. Neither is a path that
  exists as a plain file, nor path normalisation or symlinks: paths compare
  as strings.
- A CSV file holds only rows this logger wrote. Other content already on
  disk is not represented beyond "empty" or "not empty".
- `Path(__file__).parent.parent` is the parameter `root`, and
  `datetime.now()` is the parameter `timestamp`.
- `str(directory)` and `str(params)` are taken as already done: those
  arguments are strings.
- Whitespace is the ASCII set that Python's `str.isspace` accepts: space,
  `\t`, `\n`, `\r`, `\v`, `\f` and `\x1c`-`\x1f`. Other Unicode whitespace
  is not modelled.
- The module-level `LOGGER_STATE` initialiser is commented out in the
  source, so calling an operation before any `start_logger` would raise
  `NameError`. The model starts from `init_logger_state()` instead.
- The `isinstance(logging_directory, Path)` test in `create_file_path` is
  left out because it always passes.
- Nothing in the code runs concurrently, so no locking is modelled.
