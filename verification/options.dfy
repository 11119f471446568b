/** Logger configuration (logger_options.go): the options record, its three
    resolvers with nil fallbacks, and the functional options applied to it. */
module Config {
  import opened Wrappers
  import opened Levels
  import opened LogFields
  import opened ContextParsers

  /** An `io.Writer` destination. `NoWriter` is the nil interface; `Buffer`
      is a caller-supplied writer, `File` an opened log file and `Multi` the
      `io.MultiWriter` of two writers. */
  datatype Writer = NoWriter | Stdout | Buffer(id: nat) | File(fd: nat) | Multi(first: Writer, second: Writer)

  /** `time.RFC3339`. */
  const RFC3339: string := "2006-01-02T15:04:05Z07:00"

  /** `options` (logger_options.go:16-30). A nil `globalFields` map is the empty map. */
  datatype Options = Options(
    w: Writer,
    lv: Level,
    globalFields: Fields,
    isTerminal: bool,
    stdout: bool,
    callerReporter: bool,
    formatTime: bool,
    formatTimeLayout: string,
    ctxParser: Option<ContextParser>)

  /** `new(options)`: every attribute at Go's zero value. */
  function ZeroOptions(): Options {
    Options(NoWriter, 0, map[], false, false, false, false, "", None)
  }

  /** `(*options).level` (logger_options.go:33-39); `None` is a nil receiver. */
  function ResolveLevel(o: Option<Options>): (lv: Level)
    ensures o.None? ==> lv == LevelDebug
    ensures o.Some? ==> lv == o.value.lv
  {
    if o.None? then LevelDebug else o.value.lv
  }

  /** `(*options).terminal` (logger_options.go:41-47). */
  function ResolveTerminal(o: Option<Options>): (t: bool)
    ensures o.None? ==> t
    ensures o.Some? ==> t == o.value.isTerminal
  {
    if o.None? then true else o.value.isTerminal
  }

  /** `(*options).writer` (logger_options.go:49-59): standard output for a nil
      receiver; the configured writer mirrored to standard output exactly when
      the output is not a terminal and mirroring is on; else the writer itself. */
  function ResolveWriter(o: Option<Options>): (w: Writer)
    ensures o.None? ==> w == Stdout
    ensures o.Some? ==> (w == Multi(Stdout, o.value.w) <==> !o.value.isTerminal && o.value.stdout)
    ensures o.Some? && !(!o.value.isTerminal && o.value.stdout) ==> w == o.value.w
  {
    if o.None? then Stdout
    else if !o.value.isTerminal && o.value.stdout then Multi(Stdout, o.value.w)
    else o.value.w
  }

  /** What the file-opening part of `WithFileLog` reported: `filepath.Abs`
      failed, `open` failed, or the file at `abs` was opened as `fd`. */
  datatype FileOpen = AbsFailed(cause: string) | OpenFailed(abs: string, cause: string) | Opened(abs: string, fd: nat)

  /** The functional options (`LoggerOption`), one constructor per option
      function; `DefaultLoggerOption` is the baseline `NewLogger` puts first. */
  datatype LoggerOption =
    | DefaultLoggerOption
    | WithLevel(level: Level)
    | WithStdout(mirror: bool)
    | WithGlobalFields(fields: Fields)
    | WithCustomWriter(writer: Writer)
    | WithReportCaller(report: bool)
    | WithTimeFormat(enabled: bool, layout: string)
    | WithFileLog(file: string, autoRotate: bool, io: FileOpen)
    | WithContextParser(parser: Option<ContextParser>)

  /** The attributes of the record, to say which ones an option may touch. */
  datatype Attr = AttrWriter | AttrLevel | AttrGlobalFields | AttrTerminal | AttrStdout
                | AttrCaller | AttrFormatTime | AttrLayout | AttrParser

  ghost predicate SameAttr(a: Options, b: Options, attr: Attr) {
    match attr
    case AttrWriter => a.w == b.w
    case AttrLevel => a.lv == b.lv
    case AttrGlobalFields => a.globalFields == b.globalFields
    case AttrTerminal => a.isTerminal == b.isTerminal
    case AttrStdout => a.stdout == b.stdout
    case AttrCaller => a.callerReporter == b.callerReporter
    case AttrFormatTime => a.formatTime == b.formatTime
    case AttrLayout => a.formatTimeLayout == b.formatTimeLayout
    case AttrParser => a.ctxParser == b.ctxParser
  }

  /** The attributes each option is documented to set. */
  function Touches(opt: LoggerOption): set<Attr> {
    match opt
    case DefaultLoggerOption => {AttrWriter, AttrLevel, AttrStdout, AttrTerminal, AttrGlobalFields, AttrParser}
    case WithLevel(_) => {AttrLevel}
    case WithStdout(_) => {AttrStdout}
    case WithGlobalFields(_) => {AttrGlobalFields}
    case WithCustomWriter(_) => {AttrWriter, AttrTerminal, AttrStdout}
    case WithReportCaller(_) => {AttrCaller}
    case WithTimeFormat(_, _) => {AttrFormatTime, AttrLayout}
    case WithFileLog(_, _, _) => {AttrWriter, AttrTerminal}
    case WithContextParser(_) => {AttrParser}
  }

  /** An option that fails: only `WithFileLog`, when the path or the file
      cannot be resolved or opened. */
  predicate Fails(opt: LoggerOption) {
    opt.WithFileLog? && !opt.io.Opened?
  }

  /** The error a failing option returns, wrapped by `errors.Wrapf` as
      "<context>: <cause>" (logger_options.go:140, 145). */
  function OptionError(opt: LoggerOption): string
    requires Fails(opt)
  {
    match opt.io
    case AbsFailed(cause) => "WithFileLog.Abs file: " + opt.file + ": " + cause
    case OpenFailed(abs, cause) => "WithFileLog.open abs: " + abs + ": " + cause
  }

  /** Position of the first failing option. */
  function FirstFailure(opts: seq<LoggerOption>): (i: nat)
    requires exists i | 0 <= i < |opts| :: Fails(opts[i])
    ensures i < |opts| && Fails(opts[i])
    ensures forall j | 0 <= j < i :: !Fails(opts[j])
  {
    if Fails(opts[0]) then 0
    else
      var i :| 0 <= i < |opts| && Fails(opts[i]);
      assert opts[1..][i - 1] == opts[i];
      var k := FirstFailure(opts[1..]);
      assert forall j | 1 <= j <= k :: opts[j] == opts[1..][j - 1];
      k + 1
  }

  /** Running one option on the record (logger_options.go:63-131, 136-186).
      Every option leaves the attributes it does not own alone, and fails
      exactly in the cases `Fails` names. */
  function Apply(o: Options, opt: LoggerOption): (r: Result<Options, string>)
    ensures r.Failure? <==> Fails(opt)
    ensures r.Success? ==> forall attr | attr !in Touches(opt) :: SameAttr(o, r.value, attr)
    ensures r.Success? && opt.WithLevel? ==> r.value.lv == opt.level
    ensures r.Success? && opt.WithStdout? ==> r.value.stdout == opt.mirror
    ensures r.Success? && opt.WithGlobalFields? ==> r.value.globalFields == opt.fields
    ensures r.Success? && opt.WithReportCaller? ==> r.value.callerReporter == opt.report
    ensures r.Success? && opt.WithContextParser? ==> r.value.ctxParser == opt.parser
    ensures r.Success? && opt.WithFileLog? ==>
      opt.io.Opened? && r.value.w == File(opt.io.fd) && !r.value.isTerminal
  {
    match opt
    case DefaultLoggerOption =>
      Success(o.(w := Stdout, lv := LevelDebug, stdout := true, isTerminal := true, globalFields := map[],
                 ctxParser := Some(DefaultContextParserFunc(NonParser))))
    case WithLevel(lv) => Success(o.(lv := lv))
    case WithStdout(v) => Success(o.(stdout := v))
    case WithGlobalFields(fs) => Success(o.(globalFields := fs))
    case WithCustomWriter(w) =>
      if w != NoWriter then Success(o.(w := w, isTerminal := false, stdout := false)) else Success(o)
    case WithReportCaller(b) => Success(o.(callerReporter := b))
    case WithTimeFormat(b, layout) =>
      Success(o.(formatTime := b, formatTimeLayout := if layout == "" then RFC3339 else layout))
    case WithFileLog(_, _, io) =>
      if io.Opened? then Success(o.(w := File(io.fd), isTerminal := false)) else Failure(OptionError(opt))
    case WithContextParser(p) => Success(o.(ctxParser := p))
  }

  /** The loop of `newLoggerWithOptions` (logger.go:42-46): options run in
      order and the first failure stops construction, wrapped once more. */
  function ApplyAll(o: Options, opts: seq<LoggerOption>): Result<Options, string>
    decreases |opts|
  {
    if |opts| == 0 then Success(o)
    else match Apply(o, opts[0])
      case Failure(e) => Failure("failed to apply option: " + e)
      case Success(o') => ApplyAll(o', opts[1..])
  }

  /** `defaultLoggerOption` (logger_options.go:63-73). */
  lemma DefaultOptionSettings(o: Options)
    ensures Apply(o, DefaultLoggerOption).Success?
    ensures var d := Apply(o, DefaultLoggerOption).value;
      && d.w == Stdout && d.lv == LevelDebug && d.stdout && d.isTerminal && d.globalFields == map[]
      && d.ctxParser.Some? && FieldName(d.ctxParser.value) == DefaultFieldName
      && (forall ctx :: Parse(d.ctxParser.value, ctx) == Str("non action"))
  {
  }

  /** `WithCustomWriter` (logger_options.go:100-110): a real writer switches
      the output off the terminal and stops mirroring; nil changes nothing. */
  lemma CustomWriterEffect(o: Options, w: Writer)
    ensures w == NoWriter ==> Apply(o, WithCustomWriter(w)) == Success(o)
    ensures w != NoWriter ==> var r := Apply(o, WithCustomWriter(w)).value;
      r.w == w && !r.isTerminal && !r.stdout && ResolveWriter(Some(r)) == w
  {
  }

  /** `WithTimeFormat` (logger_options.go:122-131): an empty layout means RFC 3339. */
  lemma TimeFormatLayout(o: Options, b: bool, layout: string)
    ensures var r := Apply(o, WithTimeFormat(b, layout)).value;
      r.formatTime == b && r.formatTimeLayout != ""
      && (layout == "" ==> r.formatTimeLayout == RFC3339)
      && (layout != "" ==> r.formatTimeLayout == layout)
  {
  }

  /** Two options of the same kind: the second overrides the first, unless it
      is the no-op `WithCustomWriter(nil)`. */
  predicate Overrides(first: LoggerOption, second: LoggerOption) {
    match second
    case DefaultLoggerOption => first.DefaultLoggerOption?
    case WithLevel(_) => first.WithLevel?
    case WithStdout(_) => first.WithStdout?
    case WithGlobalFields(_) => first.WithGlobalFields?
    case WithCustomWriter(w) => first.WithCustomWriter? && w != NoWriter
    case WithReportCaller(_) => first.WithReportCaller?
    case WithTimeFormat(_, _) => first.WithTimeFormat?
    case WithFileLog(_, _, _) => first.WithFileLog?
    case WithContextParser(_) => first.WithContextParser?
  }

  /** Later options win: applying `first` and then an overriding `second`
      is the same as applying `second` alone. */
  lemma LaterOptionWins(o: Options, first: LoggerOption, second: LoggerOption)
    requires Overrides(first, second)
    requires Apply(o, first).Success?
    ensures Apply(Apply(o, first).value, second) == Apply(o, second)
  {
  }

  /** The level a sequence of options leaves behind: that of the last level
      setter, `WithLevel` or the default option, else the starting one. */
  function LastLevel(opts: seq<LoggerOption>, start: Level): Level
    decreases |opts|
  {
    if |opts| == 0 then start
    else
      var last := opts[|opts| - 1];
      if last.WithLevel? then last.level
      else if last.DefaultLoggerOption? then LevelDebug
      else LastLevel(opts[..|opts| - 1], start)
  }

  lemma {:induction false} ApplyAllSnoc(o: Options, opts: seq<LoggerOption>, opt: LoggerOption)
    ensures ApplyAll(o, opts + [opt]) ==
      match ApplyAll(o, opts)
      case Failure(e) => Failure(e)
      case Success(o') =>
        (match Apply(o', opt)
         case Failure(e) => Failure("failed to apply option: " + e)
         case Success(o'') => Success(o''))
    decreases |opts|
  {
    if |opts| == 0 {
      assert opts + [opt] == [opt];
    } else {
      assert (opts + [opt])[0] == opts[0];
      assert (opts + [opt])[1..] == opts[1..] + [opt];
      match Apply(o, opts[0])
      case Failure(_) =>
      case Success(o') => ApplyAllSnoc(o', opts[1..], opt);
    }
  }

  /** Construction fails exactly when one of the options fails, and then
      reports the first failing option's error, wrapped once more. */
  lemma {:induction false} ApplyAllFails(o: Options, opts: seq<LoggerOption>)
    ensures ApplyAll(o, opts).Failure? <==> exists i | 0 <= i < |opts| :: Fails(opts[i])
    ensures ApplyAll(o, opts).Failure? ==>
      ApplyAll(o, opts).error == "failed to apply option: " + OptionError(opts[FirstFailure(opts)])
    decreases |opts|
  {
    if |opts| > 0 {
      if Apply(o, opts[0]).Success? {
        var rest := opts[1..];
        ApplyAllFails(Apply(o, opts[0]).value, rest);
        assert forall j | 0 <= j < |rest| :: rest[j] == opts[j + 1];
        if exists i | 0 <= i < |opts| :: Fails(opts[i]) {
          var i :| 0 <= i < |opts| && Fails(opts[i]);
          assert rest[i - 1] == opts[i];
          assert FirstFailure(opts) == FirstFailure(rest) + 1;
        }
      }
    }
  }

  /** The threshold after construction is the one the last level-setting
      option chose. */
  lemma {:induction false} ApplyAllLevel(o: Options, opts: seq<LoggerOption>)
    requires ApplyAll(o, opts).Success?
    ensures ApplyAll(o, opts).value.lv == LastLevel(opts, o.lv)
    decreases |opts|
  {
    if |opts| > 0 {
      var init := opts[..|opts| - 1];
      var last := opts[|opts| - 1];
      assert opts == init + [last];
      ApplyAllSnoc(o, init, last);
      var mid := ApplyAll(o, init).value;
      ApplyAllLevel(o, init);
      ApplyLevel(mid, last);
      assert LastLevel(opts, o.lv) == StepLevel(last, LastLevel(init, o.lv));
    }
  }

  /** The threshold after one option, given the one before it. */
  function StepLevel(opt: LoggerOption, before: Level): Level {
    if opt.WithLevel? then opt.level else if opt.DefaultLoggerOption? then LevelDebug else before
  }

  lemma ApplyLevel(o: Options, opt: LoggerOption)
    requires Apply(o, opt).Success?
    ensures Apply(o, opt).value.lv == StepLevel(opt, o.lv)
  {
  }

  /** Once a writer is set, no option can take it away again. */
  lemma {:induction false} ApplyAllKeepsWriter(o: Options, opts: seq<LoggerOption>)
    requires o.w != NoWriter
    requires ApplyAll(o, opts).Success?
    ensures ApplyAll(o, opts).value.w != NoWriter
    decreases |opts|
  {
    if |opts| > 0 {
      ApplyAllKeepsWriter(Apply(o, opts[0]).value, opts[1..]);
    }
  }
}
