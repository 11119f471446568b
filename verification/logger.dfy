/** The logger (logger.go:25-164): construction from functional options,
    the two runtime setters, and the convenience methods that make a fresh
    entry from the logger's options and use it once. */
module Loggers {
  import opened Wrappers
  import opened Levels
  import opened LogFields
  import opened Formatter
  import opened Config
  import opened Entries

  /** The option list `NewLogger` runs: the default first (logger.go:33-35). */
  function WithDefault(opts: seq<LoggerOption>): seq<LoggerOption> {
    [DefaultLoggerOption] + opts
  }

  /** `NewLogger` and `newLoggerWithOptions` (logger.go:31-58): the options
      run on a zero-valued record; the first failing one aborts construction
      with its error wrapped. */
  function NewLogger(opts: seq<LoggerOption>, handle: nat): (r: Result<Logger, string>)
    ensures r.Success? <==> forall i | 0 <= i < |opts| :: !Fails(opts[i])
    ensures r.Failure? ==> r.error == "failed to apply option: " + OptionError(opts[FirstFailure(opts)])
    ensures r.Success? ==> r.value.handle == handle
    ensures r.Success? ==> r.value.opt.w != NoWriter
    ensures r.Success? ==> r.value.opt.lv == LastLevel(opts, LevelDebug)
  {
    var all := WithDefault(opts);
    var first := Apply(ZeroOptions(), DefaultLoggerOption).value;
    assert all[1..] == opts;
    ApplyAllFails(ZeroOptions(), all);
    ApplyAllFails(first, opts);
    if ApplyAll(ZeroOptions(), all).Success? then
      ApplyAllKeepsWriter(first, opts);
      ApplyAllLevel(ZeroOptions(), all);
      LastLevelAfterDefault(opts, 0);
      Success(Logger(handle, ApplyAll(ZeroOptions(), all).value))
    else
      Failure(ApplyAll(ZeroOptions(), all).error)
  }

  /** Putting the default first only changes the starting level to Debug. */
  lemma {:induction false} LastLevelAfterDefault(opts: seq<LoggerOption>, start: Level)
    ensures LastLevel(WithDefault(opts), start) == LastLevel(opts, LevelDebug)
    decreases |opts|
  {
    var all := WithDefault(opts);
    if |opts| > 0 {
      var n := |opts|;
      assert all[|all| - 1] == opts[n - 1];
      assert all[..|all| - 1] == WithDefault(opts[..n - 1]);
      LastLevelAfterDefault(opts[..n - 1], start);
    } else {
      assert all == [DefaultLoggerOption];
    }
  }

  /** `Logger.SetLogLevel` (logger.go:144-146): every entry made afterwards
      gets the new threshold and nothing else changes. */
  function SetLogLevel(l: Logger, level: Level): (r: Logger)
    ensures r.handle == l.handle
    ensures NewEntryAsWritten(r) == NewEntryAsWritten(l).(lv := level)
  {
    Logger(l.handle, l.opt.(lv := level))
  }

  /** `Logger.SetCallerReporter` (logger.go:148-150). */
  function SetCallerReporter(l: Logger, b: bool): (r: Logger)
    ensures r.handle == l.handle
    ensures NewEntryAsWritten(r) == NewEntryAsWritten(l).(callerReporter := b)
  {
    Logger(l.handle, l.opt.(callerReporter := b))
  }

  /** `Logger.WithField` (logger.go:152-157): a fresh entry's global fields
      plus one pair that overrides a global key of the same name. The entry
      that is released afterwards is the fresh one, not the returned one. */
  function LoggerWithField(l: Logger, key: string, value: Value): (e: Entry)
    ensures e.fields == Some(l.opt.globalFields[key := value])
    ensures e == NewEntryAsWritten(l).(fields := e.fields)
  {
    var r := WithFields(NewEntryAsWritten(l), map[key := value]);
    assert r.fields.value == l.opt.globalFields[key := value];
    r
  }

  /** `Logger.WithFields` (logger.go:159-164). */
  function LoggerWithFields(l: Logger, f: Fields): (e: Entry)
    ensures e.fields == Some(l.opt.globalFields + f)
    ensures e == NewEntryAsWritten(l).(fields := e.fields)
  {
    var r := WithFields(NewEntryAsWritten(l), f);
    assert r.fields.value == l.opt.globalFields + f;
    r
  }

  /** `Logger.Fatal` ... `Logger.Debugf` (logger.go:60-122): one use of a
      fresh entry at the severity's level; Fatal then exits. */
  function LoggerLog(l: Logger, s: Severity, msg: string, now: Instant, frame: Option<Frame>,
                     order: seq<string>, writeErr: Option<string>, ext: Externals): (c: Call)
    requires Emits(l.opt.lv, LevelOf(s)) ==> Enumerates(order, KeysToFormat(NewEntryAsWritten(l), msg))
    ensures !Emits(l.opt.lv, LevelOf(s)) ==> c.outcome.Done? && c.outcome.writes == []
    ensures c.exited <==> s.Fatal? && c.outcome.Done?
    ensures l.opt.w != NoWriter ==> c.outcome.Done?
    ensures c.outcome.Done? ==> (|c.outcome.writes| == 1 <==> Emits(l.opt.lv, LevelOf(s)))
    ensures c.outcome.Done? && Emits(l.opt.lv, LevelOf(s)) ==>
      c.outcome.writes[0].dest == ResolveWriter(Some(l.opt))
  {
    Log(NewEntryAsWritten(l), s, msg, now, frame, order, writeErr, ext)
  }

  /** A logger that `NewLogger` built never panics on a severity call, and it
      writes exactly when its threshold lets the level through. */
  lemma BuiltLoggerNeverPanics(opts: seq<LoggerOption>, handle: nat, s: Severity, msg: string, now: Instant,
                               frame: Option<Frame>, order: seq<string>, writeErr: Option<string>, ext: Externals)
    requires NewLogger(opts, handle).Success?
    requires var l := NewLogger(opts, handle).value;
      Emits(l.opt.lv, LevelOf(s)) ==> Enumerates(order, KeysToFormat(NewEntryAsWritten(l), msg))
    ensures var l := NewLogger(opts, handle).value;
      var c := LoggerLog(l, s, msg, now, frame, order, writeErr, ext);
      c.outcome.Done? && (|c.outcome.writes| == 1 <==> LevelOf(s) <= LastLevel(opts, LevelDebug))
  {
  }

  /** After `SetLogLevel(level)`, a severity call writes exactly when its
      level is at most `level`. */
  lemma SetLogLevelGates(l: Logger, level: Level, s: Severity, msg: string, now: Instant,
                         frame: Option<Frame>, order: seq<string>, writeErr: Option<string>, ext: Externals)
    requires l.opt.w != NoWriter
    requires LevelOf(s) <= level ==> Enumerates(order, KeysToFormat(NewEntryAsWritten(SetLogLevel(l, level)), msg))
    ensures var c := LoggerLog(SetLogLevel(l, level), s, msg, now, frame, order, writeErr, ext);
      |c.outcome.writes| == 1 <==> LevelOf(s) <= level
  {
  }
}
