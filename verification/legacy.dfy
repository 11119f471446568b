/** The older revision of the package (log.go): a two-sink logger with a
    numeric threshold, a fixed level-to-label table, and file naming for a
    daily split. It shares the level constants with the newer logger but
    nothing else, so it is a module of its own. */
module Legacy {
  import opened Wrappers
  import opened Text
  import opened Levels
  import opened Formatter
  import opened Rotation

  /** `logger` (log.go:84-89). The console logger is always present; the
      file logger exists once `SetFileOutput` has succeeded. */
  datatype LegacyLogger = LegacyLogger(logLevel: Level, hasFile: bool)

  /** `NewLogger` (log.go:92-98). */
  function NewLogger(): (l: LegacyLogger)
    ensures l.logLevel == LevelDebug && !l.hasFile
  {
    LegacyLogger(LevelDebug, false)
  }

  /** `New` (log.go:101-107), also the package-level logger (log.go:34):
      the same record `NewLogger` builds. */
  function New(): (l: LegacyLogger)
    ensures l.logLevel == LevelDebug && !l.hasFile
  {
    NewLogger()
  }

  /** `logger.SetLogLevel` (log.go:222-224). */
  function SetLogLevel(l: LegacyLogger, level: Level): (r: LegacyLogger)
    ensures r.logLevel == level && r.hasFile == l.hasFile
  {
    l.(logLevel := level)
  }

  /** The console format prefix per level (log.go:147-165). */
  function ConsoleLabel(level: Level): string {
    if level == LevelFatal then [Esc] + "[35m[FATAL]" + [Esc] + "[0m "
    else if level == LevelError then [Esc] + "[31m[ERROR]" + [Esc] + "[0m "
    else if level == LevelWarning then [Esc] + "[33m[WARN]" + [Esc] + "[0m "
    else if level == LevelInfo then [Esc] + "[32m[INFO]" + [Esc] + "[0m "
    else if level == LevelDebug then [Esc] + "[36m[DEBUG]" + [Esc] + "[0m "
    else "[UNKNOWN] "
  }

  /** The file format prefix per level (log.go:147-165). */
  function FileLabel(level: Level): string {
    if level == LevelFatal then "[FATAL] "
    else if level == LevelError then "[ERROR] "
    else if level == LevelWarning then "[WARN] "
    else if level == LevelInfo then "[INFO] "
    else if level == LevelDebug then "[DEBUG] "
    else "[UNKNOWN] "
  }

  /** The ANSI colour code of a named level; none for the others. */
  function ColorCode(level: Level): (c: Option<string>)
    ensures c.Some? <==> LevelFatal <= level <= LevelDebug
  {
    if level == LevelFatal then Some("35")
    else if level == LevelError then Some("31")
    else if level == LevelWarning then Some("33")
    else if level == LevelInfo then Some("32")
    else if level == LevelDebug then Some("36")
    else None
  }

  /** Wraps a bracketed label in an ANSI colour, keeping the space after it. */
  function Colored(code: string, fileLabel: string): string
    requires |fileLabel| > 0
  {
    [Esc] + "[" + code + "m" + fileLabel[..|fileLabel| - 1] + [Esc] + "[0m "
  }

  /** For a named level the console label is the file label in that level's
      colour; any other level prints the same "[UNKNOWN] " on both sinks. */
  lemma ConsoleIsColoredFileLabel(level: Level)
    ensures ColorCode(level).Some? ==> ConsoleLabel(level) == Colored(ColorCode(level).value, FileLabel(level))
    ensures ColorCode(level).None? ==> ConsoleLabel(level) == FileLabel(level) == "[UNKNOWN] "
  {
    if level == LevelFatal {
      FatalLabels();
    } else if level == LevelError {
      ErrorLabels();
    } else if level == LevelWarning {
      WarnLabels();
    } else if level == LevelInfo {
      InfoLabels();
    } else if level == LevelDebug {
      DebugLabels();
    }
  }

  lemma FatalLabels()
    ensures ConsoleLabel(LevelFatal) == Colored("35", FileLabel(LevelFatal))
  {
    assert [Esc] + "[35m[FATAL]" + [Esc] + "[0m " == [Esc] + "[" + "35" + "m" + "[FATAL]" + [Esc] + "[0m ";
    assert "[FATAL] "[..7] == "[FATAL]";
  }

  lemma ErrorLabels()
    ensures ConsoleLabel(LevelError) == Colored("31", FileLabel(LevelError))
  {
    assert [Esc] + "[31m[ERROR]" + [Esc] + "[0m " == [Esc] + "[" + "31" + "m" + "[ERROR]" + [Esc] + "[0m ";
    assert "[ERROR] "[..7] == "[ERROR]";
  }

  lemma WarnLabels()
    ensures ConsoleLabel(LevelWarning) == Colored("33", FileLabel(LevelWarning))
  {
    assert [Esc] + "[33m[WARN]" + [Esc] + "[0m " == [Esc] + "[" + "33" + "m" + "[WARN]" + [Esc] + "[0m ";
    assert "[WARN] "[..6] == "[WARN]";
  }

  lemma InfoLabels()
    ensures ConsoleLabel(LevelInfo) == Colored("32", FileLabel(LevelInfo))
  {
    assert [Esc] + "[32m[INFO]" + [Esc] + "[0m " == [Esc] + "[" + "32" + "m" + "[INFO]" + [Esc] + "[0m ";
    assert "[INFO] "[..6] == "[INFO]";
  }

  lemma DebugLabels()
    ensures ConsoleLabel(LevelDebug) == Colored("36", FileLabel(LevelDebug))
  {
    assert [Esc] + "[36m[DEBUG]" + [Esc] + "[0m " == [Esc] + "[" + "36" + "m" + "[DEBUG]" + [Esc] + "[0m ";
    assert "[DEBUG] "[..7] == "[DEBUG]";
  }

  /** Removes every ANSI colour sequence `ESC [ digits m` from a string. */
  function StripColor(s: string): (r: string)
    ensures |r| <= |s|
    ensures Esc !in s ==> r == s
    decreases |s|
  {
    if |s| == 0 then ""
    else if s[0] == Esc then
      var k := SkipColor(s, 1);
      if k < |s| && s[k] == 'm' then StripColor(s[k + 1..]) else [s[0]] + StripColor(s[1..])
    else [s[0]] + StripColor(s[1..])
  }

  /** The first index at or after `i` that is not '[' or a digit. */
  function SkipColor(s: string, i: nat): (k: nat)
    requires 1 <= i <= |s|
    ensures i <= k <= |s|
    ensures forall j | i <= j < k :: s[j] == '[' || IsDigit(s[j])
    ensures k < |s| ==> s[k] != '[' && !IsDigit(s[k])
    decreases |s| - i
  {
    if i < |s| && (s[i] == '[' || IsDigit(s[i])) then SkipColor(s, i + 1) else i
  }

  /** A colour sequence with a numeric code is removed whole. */
  lemma {:induction false} StripSequence(code: string, rest: string)
    requires AllDigits(code)
    ensures StripColor([Esc] + "[" + code + "m" + rest) == StripColor(rest)
  {
    var t := [Esc] + "[" + code + "m" + rest;
    var m := 2 + |code|;
    assert t[m] == 'm';
    forall j | 1 <= j < m
      ensures t[j] == '[' || IsDigit(t[j])
    {
      if j > 1 {
        assert t[j] == code[j - 2];
      }
    }
    var k := SkipColor(t, 1);
    assert k == m;
    assert t[m + 1..] == rest;
  }

  /** Text without an escape character passes through unchanged. */
  lemma {:induction false} StripPlain(name: string, rest: string)
    requires Esc !in name
    ensures StripColor(name + rest) == name + StripColor(rest)
    decreases |name|
  {
    if |name| > 0 {
      var t := name + rest;
      assert t[0] == name[0] && t[1..] == name[1..] + rest;
      assert name[0] != Esc;
      StripPlain(name[1..], rest);
      ConsAssociates(name[0], name[1..], StripColor(rest));
      assert [name[0]] + name[1..] == name;
    } else {
      assert name + rest == rest;
    }
  }

  /** Taking the colour out of a coloured label gives the label back. */
  lemma StripColored(code: string, fileLabel: string)
    requires AllDigits(code) && |fileLabel| > 0 && fileLabel[|fileLabel| - 1] == ' ' && Esc !in fileLabel
    ensures StripColor(Colored(code, fileLabel)) == fileLabel
  {
    var name := fileLabel[..|fileLabel| - 1];
    var tail := [Esc] + "[" + "0" + "m" + " ";
    ColoredShape(code, fileLabel);
    StripSequence(code, name + tail);
    LabelName(fileLabel);
    StripPlain(name, tail);
    StripReset();
  }

  /** A label is its name followed by the closing space. */
  lemma LabelName(fileLabel: string)
    requires |fileLabel| > 0 && fileLabel[|fileLabel| - 1] == ' ' && Esc !in fileLabel
    ensures Esc !in fileLabel[..|fileLabel| - 1]
    ensures fileLabel[..|fileLabel| - 1] + " " == fileLabel
  {
    var name := fileLabel[..|fileLabel| - 1];
    forall i | 0 <= i < |name|
      ensures name[i] != Esc
    {
      assert name[i] == fileLabel[i];
    }
  }

  lemma ColoredShape(code: string, fileLabel: string)
    requires |fileLabel| > 0
    ensures Colored(code, fileLabel) ==
      [Esc] + "[" + code + "m" + (fileLabel[..|fileLabel| - 1] + ([Esc] + "[" + "0" + "m" + " "))
  {
  }

  /** The reset sequence and the space after it strip to the space. */
  lemma StripReset()
    ensures StripColor([Esc] + "[" + "0" + "m" + " ") == " "
  {
    StripSequence("0", " ");
    assert StripColor(" ") == " ";
  }

  /** Taking the colour out of the console label gives the file label. */
  lemma StripConsoleLabel(level: Level)
    ensures StripColor(ConsoleLabel(level)) == FileLabel(level)
  {
    ConsoleIsColoredFileLabel(level);
    if ColorCode(level).Some? {
      StripColored(ColorCode(level).value, FileLabel(level));
    }
  }

  /** Where one emitted line goes. */
  datatype Sink = Console | LogFile

  datatype LegacyWrite = LegacyWrite(sink: Sink, line: string)

  /** The result of `logger.Output`: the writes attempted, and a panic when
      one of them failed. */
  datatype LegacyOutcome = Written(writes: seq<LegacyWrite>) | Panicked(reason: string, writes: seq<LegacyWrite>)

  /** `logger.Output` (log.go:143-178): the threshold gate, then the console
      write and, with a file logger, the file write. A failing write panics
      with its error and nothing after it is attempted. The `log.Logger`
      header (date, time, file:line) is not part of the model; `consoleErr`
      and `fileErr` are what the two writes would return. */
  function LegacyOutput(l: LegacyLogger, level: Level, s: string,
                        consoleErr: Option<string>, fileErr: Option<string>): (r: LegacyOutcome)
    ensures l.logLevel < level ==> r == Written([])
    ensures !(l.logLevel < level) ==>
      |r.writes| >= 1 && r.writes[0] == LegacyWrite(Console, ConsoleLabel(level) + s)
    ensures !(l.logLevel < level) ==>
      (|r.writes| == 2 <==> l.hasFile && consoleErr.None?)
    ensures |r.writes| == 2 ==> r.writes[1] == LegacyWrite(LogFile, FileLabel(level) + s)
    ensures r.Panicked? <==> !(l.logLevel < level) && (consoleErr.Some? || (l.hasFile && fileErr.Some?))
    ensures r.Panicked? && consoleErr.Some? ==> r.reason == consoleErr.value
    ensures r.Panicked? && consoleErr.None? ==> r.reason == fileErr.value
  {
    if l.logLevel < level then Written([])
    else
      var console := LegacyWrite(Console, ConsoleLabel(level) + s);
      if consoleErr.Some? then Panicked(consoleErr.value, [console])
      else if !l.hasFile then Written([console])
      else
        var file := LegacyWrite(LogFile, FileLabel(level) + s);
        if fileErr.Some? then Panicked(fileErr.value, [console, file])
        else Written([console, file])
  }

  /** The legacy gate is the same relation as the newer logger's. */
  lemma LegacyGateAgrees(l: LegacyLogger, level: Level, s: string,
                         consoleErr: Option<string>, fileErr: Option<string>)
    ensures |LegacyOutput(l, level, s, consoleErr, fileErr).writes| > 0 <==> Emits(l.logLevel, level)
  {
  }

  /** Both sinks carry the same text once the console colour is removed. */
  lemma SinksAgree(l: LegacyLogger, level: Level, s: string, fileErr: Option<string>)
    requires l.hasFile && Emits(l.logLevel, level)
    ensures var w := LegacyOutput(l, level, s, None, fileErr).writes;
      w[1].line == FileLabel(level) + s
      && StripColor(w[0].line) == StripColor(w[1].line) == FileLabel(level) + StripColor(s)
  {
    StripConcat(ConsoleLabel(level), s);
    StripConsoleLabel(level);
    FileLabelPlain(level);
    StripPlain(FileLabel(level), s);
  }

  lemma FileLabelPlain(level: Level)
    ensures Esc !in FileLabel(level)
  {
  }

  /** Stripping works piecewise across a label, which ends in a space. */
  lemma {:induction false} StripConcat(head: string, s: string)
    requires |head| > 0 && head[|head| - 1] == ' '
    ensures StripColor(head + s) == StripColor(head) + StripColor(s)
    decreases |head|, 1
  {
    if |head| == 1 {
      StripConcatSpace(head, s);
    } else if head[0] == Esc && SkipColor(head, 1) < |head| && head[SkipColor(head, 1)] == 'm' {
      StripConcatAfterSequence(head, s);
    } else {
      StripConcatAfterChar(head, s);
    }
  }

  /** `StripConcat` for a label that starts with a colour sequence. */
  lemma {:induction false} StripConcatAfterSequence(head: string, s: string)
    requires 1 < |head| && head[|head| - 1] == ' ' && head[0] == Esc
    requires SkipColor(head, 1) < |head| && head[SkipColor(head, 1)] == 'm'
    ensures StripColor(head + s) == StripColor(head) + StripColor(s)
    decreases |head|, 0
  {
    var k := SkipColor(head, 1);
    StripConcatSequence(head, s);
    var rest := head[k + 1..];
    assert |rest| > 0 && rest[|rest| - 1] == head[|head| - 1];
    StripConcat(rest, s);
  }

  /** `StripConcat` for a label whose first character is kept. */
  lemma {:induction false} StripConcatAfterChar(head: string, s: string)
    requires 1 < |head| && head[|head| - 1] == ' '
    requires head[0] == Esc ==> !(SkipColor(head, 1) < |head| && head[SkipColor(head, 1)] == 'm')
    ensures StripColor(head + s) == StripColor(head) + StripColor(s)
    decreases |head|, 0
  {
    var c, rest := head[0], head[1..];
    StripConcatChar(head, s);
    assert |rest| == |head| - 1 > 0 && rest[|rest| - 1] == head[|head| - 1];
    StripConcat(rest, s);
    ConsAssociates(c, StripColor(rest), StripColor(s));
  }

  lemma ConsAssociates(c: char, a: string, b: string)
    ensures [c] + (a + b) == ([c] + a) + b
  {
  }

  lemma StripConcatSpace(head: string, s: string)
    requires head == " "
    ensures StripColor(head + s) == StripColor(head) + StripColor(s)
  {
    assert (head + s)[1..] == s;
    assert head[1..] == "";
  }

  /** A colour sequence at the front of a label is dropped with or without
      the text that follows the label. */
  lemma StripConcatSequence(head: string, s: string)
    requires 1 < |head| && head[|head| - 1] == ' ' && head[0] == Esc
    requires SkipColor(head, 1) < |head| && head[SkipColor(head, 1)] == 'm'
    ensures SkipColor(head, 1) + 1 < |head|
    ensures StripColor(head) == StripColor(head[SkipColor(head, 1) + 1..])
    ensures StripColor(head + s) == StripColor(head[SkipColor(head, 1) + 1..] + s)
  {
    var k := SkipColor(head, 1);
    var t := head + s;
    SkipPrefix(head, s, 1);
    assert t[0] == Esc && t[k] == 'm';
    StripAtSequence(head, k);
    StripAtSequence(t, k);
    SliceOfConcat(head, s, k + 1);
  }

  lemma SliceOfConcat(a: string, b: string, i: nat)
    requires i <= |a|
    ensures (a + b)[i..] == a[i..] + b
  {
  }

  /** One unfolding of `StripColor` at a colour sequence ending at `k`. */
  lemma StripAtSequence(t: string, k: nat)
    requires 0 < |t| && t[0] == Esc && SkipColor(t, 1) == k && k < |t| && t[k] == 'm'
    ensures StripColor(t) == StripColor(t[k + 1..])
  {
  }

  /** A character that does not start a colour sequence is kept, with or
      without the text that follows the label. */
  lemma StripConcatChar(head: string, s: string)
    requires 1 < |head| && head[|head| - 1] == ' '
    requires head[0] == Esc ==> !(SkipColor(head, 1) < |head| && head[SkipColor(head, 1)] == 'm')
    ensures StripColor(head) == [head[0]] + StripColor(head[1..])
    ensures StripColor(head + s) == [head[0]] + StripColor(head[1..] + s)
  {
    var t := head + s;
    assert t[0] == head[0];
    assert t[1..] == head[1..] + s;
    if head[0] == Esc {
      SkipPrefix(head, s, 1);
    }
  }

  lemma SkipPrefix(head: string, s: string, i: nat)
    requires 1 <= i < |head| && head[|head| - 1] == ' '
    ensures SkipColor(head + s, i) == SkipColor(head, i)
    decreases |head| - i
  {
    var t := head + s;
    if i < |head| && (head[i] == '[' || IsDigit(head[i])) {
      assert t[i] == head[i];
      SkipPrefix(head, s, i + 1);
    } else {
      assert t[i] == head[i];
    }
  }

  /** `logger.Fatal` ... `logger.Debugf` (log.go:180-220) and the
      package-level functions on the package logger (log.go:38-82): the
      output at the severity's level; Fatal then exits, unless the output
      panicked first. */
  function LegacyLog(l: LegacyLogger, sev: Severity, s: string,
                     consoleErr: Option<string>, fileErr: Option<string>): (r: (LegacyOutcome, bool))
    ensures r.0 == LegacyOutput(l, LevelOf(sev), s, consoleErr, fileErr)
    ensures r.1 <==> sev.Fatal? && r.0.Written?
  {
    var o := LegacyOutput(l, LevelOf(sev), s, consoleErr, fileErr);
    (o, sev.Fatal? && o.Written?)
  }

  /** `assembleFilepath` (log.go:239-250): ".log" is always added when
      missing. */
  function AssembleFilepath(logPath: string, filename: string): (r: string)
    ensures HasSuffix(r, ".log")
    ensures logPath == "" ==> r == LogName(filename, true)
    ensures logPath != "" && filename != "" && '/' !in filename ==> Base(r) == LogName(filename, true)
  {
    var name := if HasSuffix(filename, ".log") then filename else filename + ".log";
    assert name == LogName(filename, true);
    var r := Join(logPath, name);
    assert r[|r| - |name|..] == name;
    assert r[|r| - 4..] == name[|name| - 4..];
    AssembleBase(logPath, filename, true);
    r
  }

  /** The older helper is the newer one with the suffix switched on. */
  lemma AssembleFilepathAgrees(logPath: string, filename: string)
    ensures AssembleFilepath(logPath, filename) == AssembleFilename(logPath, filename, true)
  {
  }

  /** `formatFilename` (log.go:252-255), with the last file date as an
      argument instead of the package variable. */
  function FormatFilename(filename: string, last: Date): (r: string)
    ensures LastIndex(r, '-') == |filename| && r[..|filename|] == filename
  {
    RotateFilename(filename, last)
  }

  /** `shouldSplit` (log.go:267-273): only the day of the month counts. */
  predicate ShouldSplit(now: Date, last: Date) {
    now.day != last.day
  }

  lemma ShouldSplitAgrees(now: Date, last: Date)
    ensures ShouldSplit(now, last) <==> ShouldSplitByTime(now, last)
  {
  }

  /** The outcome of `SetFileOutput` (log.go:113-118): the path it opens and
      the logger with its file sink, or the open error. */
  datatype FileSetup = FileSetup(path: string, result: Result<LegacyLogger, string>)

  function SetFileOutput(l: LegacyLogger, logPath: string, filename: string, openErr: Option<string>): (r: FileSetup)
    ensures r.path == AssembleFilepath(logPath, filename)
    ensures r.result.Failure? <==> openErr.Some?
    ensures r.result.Failure? ==> r.result.error == openErr.value
    ensures r.result.Success? ==> r.result.value == l.(hasFile := true)
  {
    var path := AssembleFilepath(logPath, filename);
    match openErr
    case Some(e) => FileSetup(path, Failure(e))
    case None => FileSetup(path, Success(LegacyLogger(l.logLevel, true)))
  }

  /** The paths of one split of the older rotation loop (log.go:113-134,
      241-246): the file opened, the file renamed away and the file reopened
      are one path, and the rotated file carries the date before ".log". */
  function LegacyRotationPaths(logPath: string, filename: string, last: Date): (p: RotationPaths)
    ensures p.logFile == p.renamedFrom == p.reopened == SetFileOutput(NewLogger(), logPath, filename, None).path
    ensures HasSuffix(p.renamedTo, ".log")
    ensures logPath != "" && filename != "" && '/' !in filename ==>
      Base(p.renamedTo) == FormatFilename(filename, last) + ".log"
  {
    var current := AssembleFilepath(logPath, filename);
    var rotated := FormatFilename(filename, last);
    RotatedLogName(filename, last);
    RotationPaths(current, current, AssembleFilepath(logPath, rotated), current)
  }

  /** The older dated name gains ".log" and keeps a plain name plain. */
  lemma RotatedLogName(filename: string, last: Date)
    ensures var r := FormatFilename(filename, last); LogName(r, true) == r + ".log"
    ensures '/' !in filename ==> '/' !in FormatFilename(filename, last)
  {
    RotatedEndsInDigit(filename, last);
    LogNameAdds(FormatFilename(filename, last));
    if '/' !in filename {
      RotatedHasNoSlash(filename, last);
    }
  }

  /** The rotated name ends in the last digit of the date stamp. */
  lemma RotatedEndsInDigit(filename: string, last: Date)
    ensures var r := RotateFilename(filename, last); r != "" && IsDigit(r[|r| - 1])
  {
    var stamp := DateStamp(last);
    var r := RotateFilename(filename, last);
    assert r == filename + "-" + stamp;
    assert r[|r| - 1] == stamp[|stamp| - 1];
  }

  /** The older loop and the corrected newer rotation (`RotationPathsFor`,
      the paths of logger_options.go:143-164 with one name throughout) keep
      writing to the same file, but they name the rotated file differently:
      the older dated name puts the date before ".log", the newer one after
      it. The newer code as written does not keep the file; see
      `AsWrittenReopenDiffers`. */
  lemma LegacySplitPathsAgree(logPath: string, filename: string, last: Date)
    requires logPath != "" && filename != "" && '/' !in filename
    ensures var legacy := LegacyRotationPaths(logPath, filename, last);
      var newer := RotationPathsFor(legacy.logFile, last);
      && newer.logFile == legacy.logFile && newer.renamedFrom == legacy.renamedFrom
      && newer.reopened == legacy.reopened
      && Base(legacy.renamedTo) == FormatFilename(filename, last) + ".log"
      && Base(newer.renamedTo) == RotateFilename(LogName(filename, true), last)
      && newer.renamedTo != legacy.renamedTo
  {
    var legacy := LegacyRotationPaths(logPath, filename, last);
    var abs := legacy.logFile;
    NewerKeepsLiveFile(logPath, filename);
    NewerBase(logPath, filename, last);
    var newer := RotationPathsFor(abs, last);
    NewerRotatedEndsInDigit(abs, last);
    LogSuffixEndsInG(legacy.renamedTo);
  }

  /** The newer code as written (logger_options.go:164), given the older
      loop's path as both the file argument and its absolute form, logs to
      that path but reopens a longer one after a split: the directory is
      joined with the whole path again. */
  lemma AsWrittenReopenDiffers(logPath: string, filename: string, last: Date)
    requires logPath != "" && filename != "" && '/' !in filename
    ensures var legacy := LegacyRotationPaths(logPath, filename, last);
      var asWritten := RotationPathsAsWritten(legacy.logFile, legacy.logFile, last);
      && asWritten.logFile == legacy.logFile
      && asWritten.reopened == Join(TrimSlashes(logPath) + "/", legacy.logFile)
      && |legacy.reopened| < |asWritten.reopened|
  {
    var legacy := LegacyRotationPaths(logPath, filename, last);
    var path := legacy.logFile;
    AsWrittenPaths(path, path, last);
    NewerKeepsLiveFile(logPath, filename);
    assert LogName(path, true) == path;
  }

  lemma LogSuffixEndsInG(t: string)
    requires HasSuffix(t, ".log")
    ensures t != "" && t[|t| - 1] == 'g'
  {
    var tail := t[|t| - 4..];
    assert tail[3] == t[|t| - 1];
  }

  /** The newer loop, given the older loop's file, splits it into the
      directory and the suffixed name and joins them back unchanged. */
  lemma NewerKeepsLiveFile(logPath: string, filename: string)
    requires logPath != "" && filename != "" && '/' !in filename
    ensures var abs := AssembleFilepath(logPath, filename);
      SplitPath(abs) == (TrimSlashes(logPath) + "/", LogName(filename, true))
      && AssembleFilename(SplitPath(abs).0, SplitPath(abs).1, true) == abs
  {
    var name := LogName(filename, true);
    AssembleFilepathAgrees(logPath, filename);
    SuffixedNameHasNoSlash(filename);
    SplitOfJoin(logPath, name);
    assert LogName(name, true) == name;
    JoinOfSplit(logPath, name);
  }

  lemma NewerBase(logPath: string, filename: string, last: Date)
    requires logPath != "" && filename != "" && '/' !in filename
    ensures var abs := AssembleFilepath(logPath, filename);
      Base(RotationPathsFor(abs, last).renamedTo) == RotateFilename(LogName(filename, true), last)
  {
    NewerKeepsLiveFile(logPath, filename);
  }

  /** The newer rotated path ends in a digit of the date. */
  lemma NewerRotatedEndsInDigit(abs: string, last: Date)
    ensures var r := RotationPathsFor(abs, last).renamedTo; r != "" && IsDigit(r[|r| - 1])
  {
    var (dir, pure) := SplitPath(abs);
    var rotated := RotateFilename(pure, last);
    RotatedEndsInDigit(pure, last);
    assert LogName(rotated, false) == rotated;
    assert RotationPathsFor(abs, last).renamedTo == Join(dir, rotated);
    JoinKeepsLastChar(dir, rotated);
  }

  lemma JoinKeepsLastChar(dir: string, name: string)
    requires name != ""
    ensures var r := Join(dir, name); r != "" && r[|r| - 1] == name[|name| - 1]
  {
    if dir != "" {
      var r := Join(dir, name);
      assert r[|r| - |name|..][|name| - 1] == r[|r| - 1];
    }
  }

  lemma SuffixedNameHasNoSlash(filename: string)
    requires '/' !in filename
    ensures '/' !in LogName(filename, true)
  {
    if !HasSuffix(filename, ".log") {
      SuffixedHasNoSlash(filename);
    }
  }

  /** Splitting a joined path gives back the directory, now ending in one
      '/', and the name. */
  lemma SplitOfJoin(dir: string, name: string)
    requires dir != "" && name != "" && '/' !in name
    ensures SplitPath(Join(dir, name)) == (TrimSlashes(dir) + "/", name)
  {
    var head := TrimSlashes(dir) + "/";
    assert Join(dir, name) == head + name;
    SplitAfterSlash(head, name);
  }

  lemma SplitAfterSlash(head: string, name: string)
    requires head != "" && head[|head| - 1] == '/' && '/' !in name
    ensures SplitPath(head + name) == (head, name)
  {
    var abs := head + name;
    forall i | |head| - 1 < i < |abs|
      ensures abs[i] != '/'
    {
      assert abs[i] == name[i - |head|];
    }
    LastIndexIs(abs, '/', |head| - 1);
    assert abs[..|head|] == head;
  }

  /** Joining the split parts again gives the same path. */
  lemma JoinOfSplit(dir: string, name: string)
    requires dir != "" && name != ""
    ensures Join(TrimSlashes(dir) + "/", name) == Join(dir, name)
  {
    var t := TrimSlashes(dir);
    if t == "" {
      assert TrimSlashes("/") == TrimSlashes("/"[..0]);
    } else {
      JoinSlashed(t + "/", name);
    }
  }
}
