/** Concrete outcomes the package's own tests check, derived here from the
    model for every value the tests leave open (the writer's error, the
    clock, the caller frame, the map range order). */
module Scenarios {
  import opened Wrappers
  import opened Text
  import opened Levels
  import opened LogFields
  import opened ContextParsers
  import opened Formatter
  import opened Config
  import opened Entries
  import opened Loggers
  import opened Rotation
  import opened Caller
  import Legacy

  /** logger_fields_test.go:9-44: merging seven source keys into a one-key
      destination leaves seven keys, and the colliding key takes the source
      value. */
  lemma CopyFieldsCase()
    ensures var dst := map["key1" := Str("value1")];
      var src := map["key1" := Str("value2"), "key2" := Str("value2"), "key3" := Str("value2"),
                     "key4" := Str("value2"), "key5" := Str("value2"), "key6" := Str("value2"),
                     "key7" := Str("value2")];
      var r := CopyFields(dst, src);
      |r.Keys| == 7 && "key1" in r && r["key1"] == Str("value2")
  {
    var src := map["key1" := Str("value2"), "key2" := Str("value2"), "key3" := Str("value2"),
                   "key4" := Str("value2"), "key5" := Str("value2"), "key6" := Str("value2"),
                   "key7" := Str("value2")];
    var r := CopyFields(map["key1" := Str("value1")], src);
    assert r.Keys == {"key1", "key2", "key3", "key4", "key5", "key6", "key7"};
    SevenKeys();
  }

  lemma SevenKeys()
    ensures |{"key1", "key2", "key3", "key4", "key5", "key6", "key7"}| == 7
  {
    var s3 := {"key1", "key2", "key3"};
    assert "key2"[3] != "key1"[3];
    assert "key3"[3] !in {"key1"[3], "key2"[3]};
    assert |s3| == 3;
    assert "key4"[3] !in {"key1"[3], "key2"[3], "key3"[3]};
    AddFresh(s3, "key4");
    var s4 := s3 + {"key4"};
    assert "key5"[3] !in {"key1"[3], "key2"[3], "key3"[3], "key4"[3]};
    AddFresh(s4, "key5");
    var s5 := s4 + {"key5"};
    assert "key6"[3] !in {"key1"[3], "key2"[3], "key3"[3], "key4"[3], "key5"[3]};
    AddFresh(s5, "key6");
    var s6 := s5 + {"key6"};
    assert "key7"[3] !in {"key1"[3], "key2"[3], "key3"[3], "key4"[3], "key5"[3], "key6"[3]};
    AddFresh(s6, "key7");
    assert s6 + {"key7"} == {"key1", "key2", "key3", "key4", "key5", "key6", "key7"};
  }

  lemma AddFresh(s: set<string>, x: string)
    requires x !in s
    ensures |s + {x}| == |s| + 1
  {
  }

  /** The options of logger_test.go:78-94. */
  function WarningOptions(): seq<LoggerOption> {
    [WithCustomWriter(Buffer(0)), WithLevel(LevelWarning)]
  }

  /** logger_test.go:78-94: a logger built with threshold Warning writes for
      Warn and Error and stays silent for Info and Debug. */
  lemma WithLevelWarningGates(handle: nat, s: Severity, msg: string, now: Instant, frame: Option<Frame>,
                              order: seq<string>, writeErr: Option<string>, ext: Externals)
    requires NewLogger(WarningOptions(), handle).Success?
    requires LevelOf(s) <= LevelWarning ==>
      Enumerates(order, KeysToFormat(NewEntryAsWritten(NewLogger(WarningOptions(), handle).value), msg))
    ensures var l := NewLogger(WarningOptions(), handle).value;
      var c := LoggerLog(l, s, msg, now, frame, order, writeErr, ext);
      c.outcome.Done? && (|c.outcome.writes| == 1 <==> s.Fatal? || s.Error? || s.Warn?)
  {
    assert LastLevel(WarningOptions(), LevelDebug) == LevelWarning by {
      assert WarningOptions()[..1] == [WithCustomWriter(Buffer(0))];
    }
    BuiltLoggerNeverPanics(WarningOptions(), handle, s, msg, now, frame, order, writeErr, ext);
  }

  /** logger_test.go:58-76: after `SetLogLevel(LevelWarning)` the same split. */
  lemma SetLevelWarningGates(l: Logger, s: Severity, msg: string, now: Instant, frame: Option<Frame>,
                             order: seq<string>, writeErr: Option<string>, ext: Externals)
    requires l.opt.w != NoWriter
    requires LevelOf(s) <= LevelWarning ==>
      Enumerates(order, KeysToFormat(NewEntryAsWritten(SetLogLevel(l, LevelWarning)), msg))
    ensures var c := LoggerLog(SetLogLevel(l, LevelWarning), s, msg, now, frame, order, writeErr, ext);
      |c.outcome.writes| == 1 <==> s.Fatal? || s.Error? || s.Warn?
  {
    SetLogLevelGates(l, LevelWarning, s, msg, now, frame, order, writeErr, ext);
  }

  /** logger_entry_test.go:51-70: the override wins and no context field
      appears. */
  lemma EntryWithFieldsCase(l: Logger)
    requires l.opt.globalFields == map["foo" := Str("bar")]
    ensures var e := WithFields(NewEntryAsWritten(l), map["foo2" := Str("bar2"), "foo" := Str("bar updated")]);
      e.fields.Some? && "foo2" in e.fields.value && DefaultFieldName !in e.fields.value
      && e.fields.value["foo"] == Str("bar updated")
  {
  }

  /** logger_test.go:48-55: a per-call field replaces a global field of the
      same key. */
  lemma GlobalFieldReplacedCase(l: Logger)
    requires l.opt.globalFields == map["global_key" := Str("global_value")]
    ensures var e := LoggerWithFields(l, map["global_key" := Str("global_valueless"), "key2" := Str("value2222")]);
      e.fields.value["global_key"] == Str("global_valueless") && e.fields.value["key2"] == Str("value2222")
  {
  }

  /** The entry the tests of logger_entry_test.go:124-137 emit from: a logger
      with default options, given a context. */
  function DefaultContextEntry(ctx: Context): Entry
    requires NewLogger([], 0).Success?
  {
    WithContext(NewEntryAsWritten(NewLogger([], 0).value), ctx)
  }

  /** logger_entry_test.go:124-137: with no parser configured, the default
      one records "non action" under `_context`. */
  lemma ContextWithoutParserCase(ctx: Context, now: Instant, frame: Option<Frame>,
                                 order: seq<string>, writeErr: Option<string>, ext: Externals)
    requires NewLogger([], 0).Success?
    requires Enumerates(order, KeysToFormat(DefaultContextEntry(ctx), "output"))
    ensures var r := Output(DefaultContextEntry(ctx), LevelInfo, "output", now, frame, order, writeErr, ext);
      r.Done? && r.entry.fields.Some? && DefaultFieldName in r.entry.fields.value
      && r.entry.fields.value[DefaultFieldName] == Str("non action")
  {
    var l := NewLogger([], 0).value;
    assert l.opt.ctxParser == Some(DefaultContextParserFunc(NonParser)) by {
      assert WithDefault([]) == [DefaultLoggerOption];
    }
    DefaultParserRecordsSentinel(ctx);
  }

  function CustomParser(ctx: Context): Value {
    Str("custom")
  }

  /** logger_entry_test.go:139-157: a configured parser's value lands under
      its own field name. */
  lemma ContextWithParserCase(e: Entry, ctx: Context, now: Instant, frame: Option<Frame>,
                              order: seq<string>, writeErr: Option<string>, ext: Externals)
    requires e.fields.Some? && e.formatter.Some? && e.out != NoWriter && Emits(e.lv, LevelInfo)
    requires e.ctxParser == Some(NewContextParserFunc(CustomParser, "ctxField"))
    requires Enumerates(order, KeysToFormat(WithContext(e, ctx), "output"))
    ensures var r := Output(WithContext(e, ctx), LevelInfo, "output", now, frame, order, writeErr, ext);
      r.Done? && "ctxField" in r.entry.fields.value && r.entry.fields.value["ctxField"] == Str("custom")
  {
  }

  /** logger_entry_test.go:96-122: context then fields, or fields then
      context, both keep the field and add the context field. */
  lemma ContextAndFieldsCommute(e: Entry, ctx: Context, f: Fields)
    ensures WithFields(WithContext(e, ctx), f) == WithContext(WithFields(e, f), ctx)
  {
  }

  /** logger.go:202-207 with the documented example: "app.log" split on
      2020-07-30 becomes "app.log-20200730". */
  lemma RotateFilenameCase()
    ensures RotateFilename("app.log", Date(2020, 7, 30)) == "app.log-20200730"
  {
    assert NatToString(2020) == "2020";
    assert NatToString(7) == "7";
    assert NatToString(30) == "30";
    assert Padded(2020, 4) == "2020";
    assert Padded(7, 2) == "07";
    assert Padded(30, 2) == "30";
  }

  /** logger_test.go:109-124: a name that already ends in ".log" is opened
      and reopened under the same path. The test's directory "./testdata"
      is cleaned by `path.Join` to "testdata"; `Join` does not remove "."
      elements, so the case is stated for the cleaned directory. */
  lemma FileSplitCase()
    ensures AssembleFilename("testdata", "split.log", true) == "testdata/split.log"
  {
    assert HasSuffix("split.log", ".log") by {
      assert "split.log"[5..] == ".log";
    }
    JoinPlain("testdata", "split.log");
    SplitPathSpelled();
  }

  lemma SplitPathSpelled()
    ensures "testdata" + "/" + "split.log" == "testdata/split.log"
  {
  }

  /** log.go:239-265: the older helpers name the rotated file of "app" in
      "logs" "logs/app-20200730.log". */
  lemma LegacyRenameCase()
    ensures Legacy.AssembleFilepath("logs", Legacy.FormatFilename("app", Date(2020, 7, 30))) == "logs/app-20200730.log"
    ensures Legacy.AssembleFilepath("logs", "app") == "logs/app.log"
  {
    LegacyRotatedPath();
    LegacyJoin("app");
    AppPathSpelled();
  }

  lemma AppPathSpelled()
    ensures "logs/" + "app" + ".log" == "logs/app.log"
  {
  }

  lemma LegacyRotatedPath()
    ensures Legacy.AssembleFilepath("logs", Legacy.FormatFilename("app", Date(2020, 7, 30))) == "logs/app-20200730.log"
  {
    LegacyFormatCase();
    LegacyJoinRotated();
  }

  lemma LegacyFormatCase()
    ensures Legacy.FormatFilename("app", Date(2020, 7, 30)) == "app-20200730"
  {
    RotateFilenameDigits();
  }

  lemma LegacyJoinRotated()
    ensures Legacy.AssembleFilepath("logs", "app-20200730") == "logs/app-20200730.log"
  {
    LegacyJoin("app-20200730");
    RotatedPathSpelled();
  }

  lemma RotatedPathSpelled()
    ensures "logs/" + "app-20200730" + ".log" == "logs/app-20200730.log"
  {
  }

  lemma LegacyJoin(name: string)
    requires name != "" && name[|name| - 1] != 'g'
    ensures Legacy.AssembleFilepath("logs", name) == "logs/" + name + ".log"
  {
    Legacy.AssembleFilepathAgrees("logs", name);
    LogNameAdds(name);
    JoinPlain("logs", name + ".log");
  }

  lemma RotateFilenameDigits()
    ensures RotateFilename("app", Date(2020, 7, 30)) == "app-20200730"
  {
    assert NatToString(2020) == "2020";
    assert NatToString(7) == "7";
    assert NatToString(30) == "30";
    assert Padded(2020, 4) == "2020";
    assert Padded(7, 2) == "07";
    assert Padded(30, 2) == "30";
  }

  /** caller_test.go:24-29 names the function "github.com/yeqown/log.testCallFn";
      its package is "github.com/yeqown/log". */
  lemma PackageNameCase()
    ensures PackagePrefix("github.com/yeqown/log.testCallFn") == "github.com/yeqown/log"
  {
    var f := "github.com/yeqown/log.testCallFn";
    LastIndexIs(f, '/', 17);
    assert f[18] == 'l' && f[19] == 'o' && f[20] == 'g' && f[21] == '.';
    assert IndexFrom(f, '.', 18) == 21;
    assert f[..21] == "github.com/yeqown/log";
  }
}
