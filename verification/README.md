# A verified model of the yeqown/log structured logger

This project models the core of the Go package `log` (github.com/yeqown/log) in Dafny and proves properties of the model.

**What is modelled:**

- The field map and its merge, `copyFields`.
- The `entry` value: construction from a `Logger`, `WithFields`, `WithContext` and `reset`.
- The emission step `output`. It applies the level gate, updates the fixed fields and the field map, renders the record and performs exactly one write.
- The text formatter. It emits the level label (coloured on a terminal), the caller fields, one time field, and the user fields (sorted or in map order). Each field is `key="value"`.
- The functional options and their resolvers, and `NewLogger`.
- The logger's setters and convenience methods.
- The context parsers.
- The log-file naming and daily split decision.
- `getPackageName`.
- The older revision of the package in `log.go`, as a separate module.

**Modelling choices:**

- **Values, not pointers.** Everything is an immutable value. A Go pointer or interface that can be nil is an `Option`, and a nil writer is the `NoWriter` case of `Writer`. A Go runtime panic is the `Panic` outcome of `Entries.Output`, with the runtime's message.
- **Parameters for what the program does not decide.** The following are passed in as arguments, so that every property holds whatever they are:
  - the clock reading;
  - the caller frame;
  - the order in which a map range visits keys;
  - the writer's error;
  - the outcome of opening a file;
  - `Level.String`, `Level.Color` and `time.Time.Format`.

  `Level.String`, `Level.Color` and `time.Time.Format` are defined outside the files modelled here, so they are grouped into the `Externals` record.
- **Map ranges.** A map range is represented by a sequence that lists every key exactly once (`Formatter.Enumerates`). `Formatter.RangeOrder` shows that such a sequence always exists.
- **Quoting.** `%q` is modelled concretely as `strconv.Quote` does it for ASCII text. Its partner `Unquote` reads the quoted text back.

**Behaviour of the code that the model follows:**

- A context field is added only when the entry has a parser. The default option installs the `nonParser` sentinel under `_context`, but `WithContextParser(nil)` switches the context field off (logger_entry.go:169-172).
- The message is not rendered after the fields. It is stored as the ordinary field `msg` and is rendered among the user fields (logger_entry.go:166).
- Entries are built as the code builds them (`Entries.NewEntryAsWritten`): the formatter takes only the terminal flag from the options, so `WithTimeFormat` has no effect on output. The logger's methods in `Loggers` use this construction; the corrected `Entries.NewEntry` appears only as the corrected half of the first finding below.
- No option turns field sorting on. `newEntry` always builds a formatter with `sortField` false. The sorted path is modelled and proved, but is unreachable from `NewLogger`.

**Modules:**

- `Wrappers`: `Option` and `Result`.
- `Text`: decimal rendering and `strings.LastIndex`.
- `Levels`: level constants and the gate.
- `LogFields`
- `ContextParsers`
- `Quoting`: `%q`.
- `Sorting`: `sort.Strings` on distinct keys.
- `Formatter`
- `Config`: options.
- `Entries`
- `Loggers`
- `Rotation`
- `Caller`
- `Legacy`: log.go.
- `Scenarios`: the outcomes the package's tests check, derived from the model.

## Model

| member | source | states |
|---|---|---|
| Text.IntToStringRoundTrip | logger_entry.go:160 | the `strconv.Itoa` rendering of a line number or timestamp reads back as the same integer |
| Text.NatToString | logger_formatter.go:77 | decimal rendering is non-empty, all digits, one digit exactly below 10, and has no leading zero |
| Text.PaddedValue | logger.go:205 | a zero-padded date component reads back as the original number |
| Text.LastIndex | caller.go:67-68 | the result is -1 or a position holding the character, and no later position holds it |
| Text.LastIndexIs | caller.go:67-68 | the last occurrence is unique: any position holding `c` with no `c` after it is `LastIndex` |
| Levels.LevelOrder | log.go:25-31 | Fatal < Error < Warning < Info < Debug |
| Levels.LevelOf | logger_entry.go:92-132 | each severity entry point passes a named level, and only Fatal passes `LevelFatal` |
| Levels.GateMonotone | logger_entry.go:135-137 | a threshold that lets a level through lets every more severe level through, and so does every higher threshold |
| LogFields.CopyFields | logger_fields.go:15-19 | the keys are the union; every source key maps to the source value; other destination keys keep their values |
| LogFields.CopyFieldsLoop | logger_fields.go:15-19 | the range loop, in any visiting order, yields the union with the source winning and the rest of the destination kept |
| LogFields.CopyFieldsIdempotent | logger_fields.go:15-19 | copying the same source a second time changes nothing |
| ContextParsers.NewContextParserFunc | logger_context.go:21-30 | the field name is the given one, or `_context` when empty, and is never empty; parsing calls the function |
| ContextParsers.DefaultContextParserFunc | logger_context.go:33-35 | the field name is `_context`; parsing calls the function |
| ContextParsers.DefaultParserRecordsSentinel | logger_context.go:51-53 | the default parser yields "non action" under `_context` for every context |
| Quoting.EscapeChar | logger_formatter.go:139 | an escaped character is never empty and never starts with a bare quote |
| Quoting.Quote | logger_formatter.go:139 | the quoted text starts and ends with a double quote |
| Quoting.UnescapeEscape | logger_formatter.go:139 | unescaping the escaped body gives the string back |
| Quoting.QuoteRoundTrip | logger_formatter.go:139 | `%q` loses nothing: unquoting the quoted string gives it back |
| Sorting.LessTotal | logger_formatter.go:115 | lexicographic order is total on distinct strings |
| Sorting.LessTransitive | logger_formatter.go:115 | lexicographic order is transitive |
| Sorting.SortPermutes | logger_formatter.go:115 | sorting is a permutation (same multiset, same length) |
| Sorting.SortSorted | logger_formatter.go:115 | sorting distinct keys gives a strictly increasing sequence |
| Sorting.SortedEnumerationUnique | logger_formatter.go:115 | two strictly increasing sequences with the same elements are equal, so any correct sort gives the same keys |
| Formatter.RangeOrder | logger_formatter.go:103-105 | a map range hands out every key of the map exactly once |
| Formatter.AppendKeyValueLayout | logger_formatter.go:124-131 | the buffer keeps its contents, gains one space iff it was non-empty, then the key, '=' and a quoted value that unquotes to the value's text |
| Formatter.AppendKeyValueText | logger_formatter.go:124-131 | appending a pair adds a separator space exactly when the buffer is non-empty |
| Formatter.AppendAllIsLine | logger_formatter.go:101-122 | appending the pairs one by one gives the reference line: pairs separated by single spaces |
| Formatter.FixedPairs | logger_formatter.go:83-97 | with caller reporting, `_filepath` then `_func` come first; exactly one time pair comes last; it is `_fmt_time` with the formatted time iff time formatting is on, else `_ts` whose text reads back as the timestamp |
| Formatter.PairsFor | logger_formatter.go:118-119 | one pair per key, holding that key's value |
| Formatter.FieldOrder | logger_formatter.go:102-120 | the walked keys are exactly the range keys, distinct, strictly increasing when sorting, the range order otherwise |
| Formatter.FieldPairs | logger_formatter.go:101-122 | every field is emitted exactly once with its value; sorted keys when sorting, the range order otherwise |
| Formatter.Format | logger_formatter.go:54-70 | the line ends with a newline, starts with the level label (ANSI-wrapped on a terminal, bare otherwise) and then holds the fixed and user pairs separated by single spaces |
| Formatter.LineShowsEachPair | logger_formatter.go:124-131 | every pair after the first appears in the line as ` key="value"` |
| Formatter.FormatShowsField | logger_formatter.go:101-106 | every field of the map appears in the rendered line as ` key="value"` |
| Formatter.SortedFormatIsDeterministic | logger_formatter.go:111-120 | with sorting on, the line does not depend on the map range order |
| Config.ResolveLevel | logger_options.go:33-39 | Debug for a nil record, else the record's level |
| Config.ResolveTerminal | logger_options.go:41-47 | true for a nil record, else the record's flag |
| Config.ResolveWriter | logger_options.go:49-59 | standard output for a nil record; the writer mirrored to standard output iff not a terminal and mirroring is on; else the writer |
| Config.Apply | logger_options.go:63-186 | an option fails iff it is a file option whose path or open failed; a successful option sets its own attribute to its argument (threshold, mirror flag, global fields, caller flag, parser), a successful file option makes the opened file the writer and turns the terminal flag off, and no option changes an attribute it does not own |
| Config.DefaultOptionSettings | logger_options.go:61-73 | the default sets standard output, Debug, mirroring, terminal, no global fields and the `nonParser` sentinel under `_context` |
| Config.CustomWriterEffect | logger_options.go:99-110 | a real writer becomes the output, with terminal and mirroring off, so the resolved writer is that writer; a nil writer changes nothing |
| Config.TimeFormatLayout | logger_options.go:121-131 | the flag is set; an empty layout becomes RFC 3339 and a non-empty one is kept verbatim |
| Config.LaterOptionWins | logger.go:42-46 | an option followed by another of its kind has the effect of the later one alone |
| Config.ApplyAllFails | logger.go:42-46 | construction fails iff some option fails, with the first failing option's error wrapped as "failed to apply option: ..." |
| Config.ApplyAllLevel | logger.go:42-46 | the resulting threshold is the one the last level-setting option chose |
| Config.ApplyAllKeepsWriter | logger.go:42-46 | once a writer is set, no later option can make it nil |
| Loggers.NewLogger | logger.go:31-58 | construction succeeds iff no option fails; on failure it reports the first failure; on success the writer is never nil and the threshold is the last `WithLevel` (Debug if none) |
| Loggers.LastLevelAfterDefault | logger.go:33-35 | putting the default option first only makes Debug the starting level |
| Loggers.SetLogLevel | logger.go:144-146 | every entry made afterwards gets the new threshold and differs in nothing else |
| Loggers.SetCallerReporter | logger.go:148-150 | every entry made afterwards gets the new caller flag and differs in nothing else |
| Loggers.LoggerWithField | logger.go:152-157 | the entry holds the global fields plus the pair, which overrides a global key of the same name; all else is that of a fresh entry as `newEntry` builds it |
| Loggers.LoggerWithFields | logger.go:159-164 | the entry holds the global fields merged with the given ones, the given ones winning |
| Loggers.LoggerLog | logger.go:60-122 | a severity call writes once iff the threshold admits the level, to the resolved writer; it exits iff Fatal and the output did not panic |
| Loggers.BuiltLoggerNeverPanics | logger.go:39-58 | a logger from `NewLogger` never panics on a severity call, and writes iff the level is at most its threshold |
| Loggers.SetLogLevelGates | logger.go:144-146 | after `SetLogLevel(level)` a call writes iff its level is at most `level` |
| Entries.SeedFields | logger_entry.go:37-43 | a new entry's map holds exactly the global fields |
| Entries.NewEntryAsWritten | logger_entry.go:27-46 | the entry points at the logger, with the resolved writer and level, the caller flag, no fixed fields or context, the global fields and the parser; its formatter takes the resolved terminal flag, does not sort and never formats time |
| Entries.NewEntry | logger_entry.go:27-46 | corrected construction (finding logger_entry.go:32-34): the entry points at the logger, with the resolved writer and level, the caller flag, no fixed fields or context, the global fields, the parser, and a formatter from the options |
| Entries.NewEntryDiffersOnlyInFormatter | logger_entry.go:32-34 | the code as written and the corrected construction differ only in the formatter |
| Entries.TimeKey | logger_formatter.go:91-96 | the time pair's key is `_fmt_time` or `_ts` |
| Entries.TimeFormatIgnoredAsWritten | logger_entry.go:32-34 | as written, every entry renders `_ts`, whatever `WithTimeFormat` chose |
| Entries.TimeFormatHonoured | logger_formatter.go:91-96 | corrected, an entry renders `_fmt_time` iff time formatting is configured, with the configured layout |
| Entries.WithFields | logger_entry.go:48-64 | the new map is the old fields merged with the given ones, the given ones winning; every other attribute is copied and fixed fields are cleared |
| Entries.WithContext | logger_entry.go:66-78 | only the context changes; the field map is the same |
| Entries.Reset | logger_entry.go:80-90 | every reference is nil, the level is Debug and caller reporting is off |
| Entries.FixedFieldAt | logger_entry.go:139-162 | the time is recorded; the caller fields are empty when not reporting, "failed:0"/"failed" without a frame, else the frame's file, line and function |
| Entries.RecordFields | logger_entry.go:164-172 | the keys gain `msg` and, with context and parser, the parser's field; `msg` holds the message unless the parser's field is `msg`; every other field is kept |
| Entries.Output | logger_entry.go:134-187 | a closed gate changes nothing and writes nothing; otherwise it panics iff fields, formatter or writer is nil, else sets the level, fixed fields and fields, writes the formatted record exactly once, and warns iff the write fails |
| Entries.OutputShowsMessage | logger_entry.go:166 | the written line holds ` msg="<message>"` unless the context field is itself named `msg` |
| Entries.OutputShowsContext | logger_entry.go:169-172 | the written line holds the parser's field and parsed value |
| Entries.OutputAfterResetPanics | logger_entry.go:80-90 | using an entry after reset panics on the nil field map at any admitted level |
| Entries.OutputNarrowsThreshold | logger_entry.go:165 | once an entry has emitted at a level, it drops every later record of a less severe level |
| Entries.Log | logger_entry.go:92-132 | a severity method is the output at its level, then an exit iff Fatal and the output did not panic |
| Rotation.PrevDay | logger_test.go:203 | the date 24 hours earlier is a valid date, the previous day of the month or the last day of the previous month |
| Rotation.DateStamp | logger.go:205 | the date stamp is all digits and at least eight long |
| Rotation.DateStampRoundTrip | logger.go:205 | the stamp of a date before year 10000 reads back as that date |
| Rotation.DateStampHasNoDash | logger.go:206 | a stamp holds no '-', so the name's last '-' is the separator |
| Rotation.TrimSlashes | logger.go:199 | the result is a prefix without a trailing slash |
| Rotation.Join | logger.go:199 | an empty directory gives the name; otherwise the result ends with '/' and the name |
| Rotation.JoinBase | logger.go:199 | the last path element of a join is the name |
| Rotation.LogName | logger.go:195-197 | the name is kept as a prefix, ends in ".log" when suffixing, and is unchanged iff not suffixing or already ending in ".log" |
| Rotation.LogNameIdempotent | logger.go:195-197 | suffixing twice is suffixing once |
| Rotation.AssembleFilename | logger.go:194-200 | with a non-empty directory and a file name without '/', the path's last element is the file name, suffixed when asked |
| Rotation.AssembleBase | logger.go:194-200 | the last element of the assembled path is the suffixed name whenever both parts are non-empty |
| Rotation.RotateFilename | logger.go:202-207 | the last '-' of the rotated name sits right after the original name |
| Rotation.RotateFilenameRoundTrip | logger.go:202-207 | the rotated name gives back both the original name and the split date |
| Rotation.SplitDecisions | logger.go:211-213 | no split at the moment of the last split; a split 24 and 48 hours after it |
| Rotation.SplitIgnoresMonthAndYear | logger.go:211-213 | the same day of the month in another month or year does not split |
| Rotation.SplitPath | logger_options.go:143 | directory plus element is the path, and the element has no '/' |
| Rotation.ReopenMissesFileAsWritten | logger_options.go:164 | as written, `WithFileLog("logs/app.log")` resolved to "/w/logs/app.log" logs to that file but reopens "/w/logs/logs/app.log" after a split |
| Rotation.RenameMissesFileAsWritten | logger.go:184 | as written, for any path whose last element lacks ".log", the rename source is that element with ".log" added, not the path that was opened |
| Rotation.RotationPathsFor | logger_options.go:143-164 | corrected, the file opened, renamed away and reopened is one path, whose last element is the suffixed name; the rotated name's last element is the dated name |
| Rotation.RotatedHasNoSlash | logger.go:206 | a rotated name has no '/' when the name has none |
| Legacy.NewLogger | log.go:92-98 | threshold Debug and no file sink |
| Legacy.New | log.go:101-107 | threshold Debug and no file sink |
| Legacy.SetLogLevel | log.go:222-224 | only the threshold changes |
| Legacy.ColorCode | log.go:149-165 | a colour code exists exactly for the five named levels |
| Legacy.ConsoleIsColoredFileLabel | log.go:147-165 | a named level's console label is its file label wrapped in the level's ANSI colour; any other level is "[UNKNOWN] " on both sinks |
| Legacy.StripColor | log.go:151-164 | removing colour sequences never lengthens text and leaves escape-free text alone |
| Legacy.StripColored | log.go:151-164 | removing the colour from a coloured label gives the label back |
| Legacy.StripConsoleLabel | log.go:147-165 | removing the colour from every console label gives the file label |
| Legacy.LegacyOutput | log.go:143-178 | a closed gate writes nothing; otherwise the console line is written first, then the file line iff a file sink exists and the console write succeeded; a failed write panics with its error |
| Legacy.LegacyGateAgrees | log.go:144-146 | the older gate writes iff the newer gate relation admits the level |
| Legacy.SinksAgree | log.go:166-177 | with colour sequences removed, the console line equals the file line: the level's file label, then the message |
| Legacy.LegacyLog | log.go:180-220 | a severity method is the output at its level, then an exit iff Fatal and nothing panicked |
| Legacy.AssembleFilepath | log.go:239-250 | the path always ends in ".log" and its last element is the suffixed file name |
| Legacy.AssembleFilepathAgrees | log.go:239-250 | the older helper is the newer one with suffixing on |
| Legacy.FormatFilename | log.go:252-255 | the name is kept and the last '-' follows it |
| Legacy.ShouldSplitAgrees | log.go:267-273 | the older split test is the newer one: day of the month only |
| Legacy.SetFileOutput | log.go:113-118 | opens the assembled path; fails iff the open fails, with its error; else adds the file sink and keeps the threshold |
| Legacy.LegacyRotationPaths | log.go:113-134 | the file opened, renamed away and reopened is the one `SetFileOutput` opens; for a plain file name the rotated file is named the dated name followed by ".log" |
| Legacy.LegacySplitPathsAgree | log.go:113-134 | the corrected newer rotation (`Rotation.RotationPathsFor`), given the file the older one opens, writes, renames away and reopens that same file; the older rotated name puts the date before ".log" and the newer after it, so the rotated paths differ |
| Legacy.AsWrittenReopenDiffers | logger_options.go:143-164 | the newer code as written, given the older loop's path as its file, logs to that path but reopens a strictly longer one, the directory joined with the whole path again |
| Caller.IndexFrom | caller.go:67-70 | the first index of the character from a position on, or the length |
| Caller.GetPackageName | caller.go:65-77 | the loop returns a prefix of the name with no '.' after its last '/', the name itself when already so, and agrees with the reference `PackagePrefix` |
| Caller.PackagePrefixProperties | caller.go:65-77 | the reference result is a prefix with no '.' after its last '/', and is the name itself when there is nothing to cut |
| Caller.PackagePrefixIdempotent | caller.go:65-77 | reducing a package name again changes nothing |
| Scenarios.CopyFieldsCase | logger_fields_test.go:9-44 | merging seven keys into one leaves seven keys, and the colliding key takes the source value |
| Scenarios.WithLevelWarningGates | logger_test.go:78-94 | a logger built at Warning writes for Warn and Error and not for Info and Debug |
| Scenarios.SetLevelWarningGates | logger_test.go:58-76 | after setting Warning, the same split |
| Scenarios.EntryWithFieldsCase | logger_entry_test.go:51-70 | the override wins and no context field appears |
| Scenarios.GlobalFieldReplacedCase | logger_test.go:48-55 | a per-call field replaces the global field of the same key |
| Scenarios.ContextWithoutParserCase | logger_entry_test.go:124-137 | with default options, a context adds "non action" under `_context` |
| Scenarios.ContextWithParserCase | logger_entry_test.go:139-157 | a configured parser's value lands under its own field name |
| Scenarios.ContextAndFieldsCommute | logger_entry_test.go:96-122 | context-then-fields and fields-then-context give the same entry |
| Scenarios.RotateFilenameCase | logger.go:202-203 | "app.log" split on 2020-07-30 becomes "app.log-20200730" |
| Scenarios.FileSplitCase | logger_test.go:109-124 | "split.log" in "testdata" (the test's "./testdata" once `path.Join` cleans it) is assembled as "testdata/split.log", gaining no second ".log" |
| Scenarios.LegacyRenameCase | log.go:239-265 | the older helpers rename "logs/app.log" to "logs/app-20200730.log" |
| Scenarios.PackageNameCase | caller_test.go:24-29 | the package of "github.com/yeqown/log.testCallFn" is "github.com/yeqown/log" |

## Left out

- `sync.Pool` reuse (logger.go:28, 50-54, 124-142): `Logger.newEntry` discards the pooled entry and returns a fresh `newEntry(l)`, so the pool has no observable effect. `releaseEntry` resets an entry nobody reads again; `Entries.Reset` and `Entries.OutputAfterResetPanics` model what a reset entry would do.
- Map aliasing: `WithContext` shares the field map by reference (logger_entry.go:73), and `output` mutates the entry in place. Under value semantics the later mutation is not visible through the other entry.
- Stack walking in `getCaller` (caller.go:27-61): the frame is a parameter, with `None` for the "failed" path.
- `time.Now`, `time.Unix(...).Format(layout)` and the RFC 3339 rendering: the clock reading is an `Instant` parameter and formatting is an external function. The calendar `Date` used for rotation is not linked to it.
- `Level.String()` and `Level.Color()`: not among the modelled files; they are external functions.
- `fmt.Sprint` / `fmt.Sprintf` of messages and `%+v` of non-string values: the message arrives rendered, and a non-string value carries its `%+v` text.
- Quoting.Quote: non-ASCII characters are passed through as printable; `strconv.Quote` also escapes unprintable Unicode and invalid UTF-8.
- Rotation.Join: models `path.Join` for these arguments only (trailing slashes of the directory trimmed, empty parts skipped); it does not clean "." or ".." elements or repeated slashes inside the name.
- Rotation.DateStampRoundTrip: holds for years below 10000 only; `time.Format("2006")` of later years is longer than four digits.
- File system calls (`open`, `rename`, `os.MkdirAll`, `openOrCreate`, `filepath.Abs`): their outcome is a parameter (`Config.FileOpen`, `Legacy.SetFileOutput`'s error).
- The rotation goroutines and tickers (logger_options.go:150-172, log.go:121-139) and the unsynchronised globals `lastSplitTimestamp` and `lstLogFileDate`: the paths of one split and the decision are modelled, with the last split date as a parameter, not the loop.
- `io.MultiWriter` and writer internals: a write is recorded with its destination and data, and its error is a parameter.
- The `log.Printf` header on the warning lines, and the `log.Logger` header (date, time, file:line) that `log.go` adds to every line.
- Legacy.LegacyOutput: the modelled lines are the format strings' output only; the header above is not part of them.
- `os.Exit`: an `exited` flag on the call's result.
- The format error branch of `output` (logger_entry.go:176-180): `TextFormatter.Format` always returns a nil error, so the branch never runs.
- Integer widths: `Level` is a Go `int` and timestamps are `int64`. No modelled path does arithmetic on them, so they are unbounded integers.
- Tests written for other revisions of the package (the five-argument `appendKeyValue`, `SetTimeFormat`, `findCaller`, `isTerminal`) are not used as evidence.
- The example programs under example/.

## Findings

| source | as written | input that shows it | evidently intended | confidence | as-written member | corrected member |
|---|---|---|---|---|---|---|
| logger_entry.go:32-34 | `newEntry` builds `&TextFormatter{isTerminal: ...}`, dropping `formatTime` and `formatTimeLayout` | `NewLogger(WithTimeFormat(true, ""))`: every line still carries `_ts`, never `_fmt_time` | the formatter takes the time settings from the options, as `WithTimeFormat` (logger_options.go:121-131) and logger_formatter.go:89-96 say | high, not executed | Entries.TimeFormatIgnoredAsWritten | Entries.TimeFormatHonoured |
| logger_options.go:164 | the reopened file is `assembleFilename(dir, file, true)`, which joins the directory of `abs` with the caller's `file` argument | `WithFileLog("logs/app.log", true)` from `/w`: logs go to `/w/logs/app.log`, but after a split `/w/logs/logs/app.log` is opened | reopen the same file: `assembleFilename(dir, pureFilename, true)` | high, not executed | Rotation.ReopenMissesFileAsWritten | Rotation.RotationPathsFor |
| logger.go:184 | the rename source is `assembleFilename(dir, pureFilename, true)`, which adds ".log", while the first open used `abs` as given (logger_options.go:144) | `WithFileLog("app", true)` from `/w`: logs go to `/w/app`, but the split renames `/w/app.log`, which does not exist | one name throughout, the suffixed one, as the older `SetFileOutput` does (log.go:114) | medium, not executed | Rotation.RenameMissesFileAsWritten | Rotation.RotationPathsFor |
